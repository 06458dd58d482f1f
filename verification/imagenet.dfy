/** The ImageNet image list of src/datasets/imagenet.h: `val_map.txt`
    holds one line per image, "<file name> <class>", and the constructor
    reads the names and classes into two lists in file order, stopping
    early once the list holds `total_count` images. Reading the file is
    outside the model: its contents are given, or its absence. */
module Imagenet {
  import opened Wrappers
  import Text
  import Flags
  import Workloads
  import ImageDataset

  // -------------------------------------------------------- white space

  /** `w` holds no white space. */
  predicate NoSpace(w: string)
  {
    forall j :: 0 <= j < |w| ==> !Text.IsSpace(w[j])
  }

  /** Position of the first white-space character of `s`, or |s|. */
  function SpaceAt(s: string): (k: nat)
    ensures k <= |s|
    ensures NoSpace(s[..k])
    ensures k < |s| ==> Text.IsSpace(s[k])
  {
    if |s| == 0 then 0
    else if Text.IsSpace(s[0]) then 0
    else
      var k := 1 + SpaceAt(s[1..]);
      assert forall j :: 1 <= j < k ==> s[..k][j] == s[1..][..k - 1][j - 1];
      k
  }

  /** The pieces of `std::sregex_token_iterator(line, "\\s+", -1)`: the text
      before every run of white space (even an empty text, as before a
      leading run), then the text after the last run unless it is empty. A
      line without white space is one piece, the line itself, so the empty
      line gives one empty piece. */
  function Fields(s: string): (fs: seq<string>)
    ensures |fs| >= 1
    ensures forall i :: 0 <= i < |fs| ==> NoSpace(fs[i])
    ensures forall i :: 1 <= i < |fs| ==> |fs[i]| > 0
    decreases |s|
  {
    var k := SpaceAt(s);
    if k == |s| then
      assert s[..k] == s;
      [s]
    else
      var rest := s[k + Text.LeadingSpace(s[k..])..];
      [s[..k]] + (if |rest| == 0 then [] else Fields(rest))
  }

  lemma {:induction false} SpaceAtAfterWord(a: string, rest: string)
    requires NoSpace(a)
    ensures SpaceAt(a + rest) == |a| + SpaceAt(rest)
    decreases |a|
  {
    if |a| > 0 {
      assert (a + rest)[1..] == a[1..] + rest;
      SpaceAtAfterWord(a[1..], rest);
    } else {
      assert a + rest == rest;
    }
  }

  lemma {:induction false} LeadingSpaceAll(t: string)
    requires forall j :: 0 <= j < |t| ==> Text.IsSpace(t[j])
    ensures Text.LeadingSpace(t) == |t|
    decreases |t|
  {
    if |t| > 0 {
      LeadingSpaceAll(t[1..]);
    }
  }

  /** A word followed by nothing but white space is one piece. */
  lemma {:induction false} FieldsOfLastWord(w: string, trailing: string)
    requires NoSpace(w)
    requires forall j :: 0 <= j < |trailing| ==> Text.IsSpace(trailing[j])
    ensures Fields(w + trailing) == [w]
  {
    var s := w + trailing;
    SpaceAtAfterWord(w, trailing);
    assert s[..|w|] == w;
    if |trailing| > 0 {
      assert SpaceAt(s) == |w| < |s|;
      assert s[|w|..] == trailing;
      LeadingSpaceAll(trailing);
      assert s[|w| + Text.LeadingSpace(s[|w|..])..] == [];
    } else {
      assert s == w;
      assert SpaceAt(trailing) == 0;
    }
  }

  /** A word, one white-space character and a text starting with a non-space
      character: the word is the first piece and the text gives the rest. */
  lemma {:induction false} FieldsOfWordThen(w: string, c: char, rest: string)
    requires NoSpace(w) && Text.IsSpace(c)
    requires |rest| > 0 && !Text.IsSpace(rest[0])
    ensures Fields(w + [c] + rest) == [w] + Fields(rest)
  {
    var s := w + [c] + rest;
    assert s == w + ([c] + rest);
    SpaceAtAfterWord(w, [c] + rest);
    assert s[..|w|] == w;
    assert s[|w|..] == [c] + rest;
    assert ([c] + rest)[1..] == rest;
    assert Text.LeadingSpace([c] + rest) == 1;
    assert s[|w| + 1..] == rest;
  }

  /** Splitting words joined by one white-space character, with any white
      space after the last, gives the words back. Only the first word may
      be empty: an empty later word would vanish into the white space. */
  lemma {:induction false} FieldsOfJoin(words: seq<string>, c: char, trailing: string)
    requires |words| >= 1 && Text.IsSpace(c)
    requires forall i :: 0 <= i < |words| ==> NoSpace(words[i])
    requires forall i :: 1 <= i < |words| ==> |words[i]| > 0
    requires forall j :: 0 <= j < |trailing| ==> Text.IsSpace(trailing[j])
    ensures Fields(Text.Join(words, c) + trailing) == words
    decreases |words|
  {
    var w := words[0];
    if |words| == 1 {
      FieldsOfLastWord(w, trailing);
    } else {
      var tail := words[1..];
      Text.JoinCons(w, tail, c);
      assert words == [w] + tail;
      var rest := Text.Join(tail, c) + trailing;
      JoinStart(tail, c);
      assert rest[0] == tail[0][0];
      assert Text.Join(words, c) + trailing == w + [c] + rest;
      FieldsOfWordThen(w, c, rest);
      FieldsOfJoin(tail, c, trailing);
    }
  }

  /** The first character of a join is that of its first piece. */
  lemma {:induction false} JoinStart(words: seq<string>, c: char)
    requires |words| >= 1 && |words[0]| > 0
    ensures |Text.Join(words, c)| > 0 && Text.Join(words, c)[0] == words[0][0]
  {
  }

  /** A line that starts with one white-space character has an empty
      first piece, so its image name is empty. */
  lemma {:induction false} LeadingBlankGivesEmptyName(c: char, rest: string)
    requires Text.IsSpace(c) && |rest| > 0 && !Text.IsSpace(rest[0])
    ensures Fields([c] + rest) == [""] + Fields(rest)
  {
    assert [c] + rest == "" + [c] + rest;
    FieldsOfWordThen("", c, rest);
  }

  // ------------------------------------------------------------ a line

  /** One image of the list. */
  datatype Entry = Entry(name: string, classId: int)

  /** One line: the name is its first piece and the class the `std::stoi` of
      its last piece (pieces in between are ignored); a last piece that is
      not a number throws. */
  function ParseLine(line: string): (r: Result<Entry>)
    ensures r.Err? ==> r.error == InvalidArgument || r.error == OutOfRange
    ensures r.Ok? <==> Text.Stoi(LastField(line)).Ok?
    ensures r.Ok? ==> r.value.name == Fields(line)[0] && Text.Stoi(LastField(line)) == Ok(r.value.classId)
    ensures r.Ok? ==> Text.InIntRange(r.value.classId)
  {
    var classId :- Text.Stoi(LastField(line));
    Ok(Entry(Fields(line)[0], classId))
  }

  /** The last white-space separated piece of a line, the one read as the class. */
  function LastField(line: string): string
  {
    var fields := Fields(line);
    fields[|fields| - 1]
  }

  lemma {:induction false} IntToStringWord(v: int)
    ensures |Text.IntToString(v)| > 0 && NoSpace(Text.IntToString(v))
  {
    var digits := Text.NatToString(if v < 0 then -v else v);
    assert forall j :: 0 <= j < |digits| ==> !Text.IsSpace(digits[j]);
    if v < 0 {
      assert Text.IntToString(v) == "-" + digits;
    }
  }

  /** A line written as "<name> <class>" (optionally ending in white space
      such as a carriage return) reads back as that name and class. */
  lemma {:induction false} ParseWrittenLine(name: string, classId: int, trailing: string)
    requires NoSpace(name) && Text.InIntRange(classId)
    requires forall j :: 0 <= j < |trailing| ==> Text.IsSpace(trailing[j])
    ensures ParseLine(name + " " + Text.IntToString(classId) + trailing) == Ok(Entry(name, classId))
  {
    var digits := Text.IntToString(classId);
    IntToStringWord(classId);
    assert Text.Join([name, digits], ' ') == name + " " + digits by {
      Text.JoinCons(name, [digits], ' ');
    }
    FieldsOfJoin([name, digits], ' ', trailing);
    Text.StoiRoundTrip(classId);
  }

  // ------------------------------------------------------------ the file

  /** The names of a parsed list, in file order. */
  function Names(entries: seq<Entry>): (names: seq<string>)
    ensures |names| == |entries|
    ensures forall i :: 0 <= i < |entries| ==> names[i] == entries[i].name
  {
    seq(|entries|, i requires 0 <= i < |entries| => entries[i].name)
  }

  /** The classes of a parsed list, in file order. */
  function Labels(entries: seq<Entry>): (labels: seq<int>)
    ensures |labels| == |entries|
    ensures forall i :: 0 <= i < |entries| ==> labels[i] == entries[i].classId
  {
    seq(|entries|, i requires 0 <= i < |entries| => entries[i].classId)
  }

  /** `(uint) total_count_`: a negative `int` wraps to 2^32 plus itself. */
  function Uint(v: int): (u: nat)
    requires Text.InIntRange(v)
    ensures u % 0x1_0000_0000 == v % 0x1_0000_0000 && u < 0x1_0000_0000
  {
    if v < 0 then v + 0x1_0000_0000 else v
  }

  /** How many of `available` lines the loop reads: all of them when the
      count is 0, otherwise no more than `(uint) total_count_`. The stored
      `total_count_` is the `size_t` copy of the `int` argument, so it is
      zero exactly when the argument is, and its `uint` cast is `Uint`. */
  function LinesRead(available: nat, totalCount: int): (n: nat)
    requires Text.InIntRange(totalCount)
    ensures n <= available
  {
    if totalCount == 0 || available <= Uint(totalCount) then available else Uint(totalCount)
  }

  /** A negative count is a huge unsigned one: it stops nothing before the
      end of a file of fewer than 2^32 + count lines. */
  lemma {:induction false} NegativeCountReadsAll(available: nat, totalCount: int)
    requires Text.InIntRange(totalCount) && totalCount < 0 && available < 0x1_0000_0000 + totalCount
    ensures LinesRead(available, totalCount) == available
  {
  }

  /** The parse of each of the first `n` lines. */
  function Parsed(lines: seq<string>, n: nat): (ps: seq<Result<Entry>>)
    requires n <= |lines|
    ensures |ps| == n
    ensures forall i :: 0 <= i < n ==> ps[i] == ParseLine(lines[i])
  {
    seq(n, i requires 0 <= i < n => ParseLine(lines[i]))
  }

  /** The constructor's reading loop over the lines of `val_map.txt`:
      every line read is parsed and appended; the first line whose class is
      not a number throws; reading stops after the line that brings the
      list to `total_count`, so it reaches the first `LinesRead` lines.
      The result is the entries of those lines, or the error of the first
      of them that does not parse. */
  function ReadImageList(lines: seq<string>, totalCount: int): (r: Result<seq<Entry>>)
    requires Text.InIntRange(totalCount)
    ensures var n := LinesRead(|lines|, totalCount);
      r.Ok? <==> forall i :: 0 <= i < n ==> ParseLine(lines[i]).Ok?
    ensures r.Ok? ==>
      && |r.value| == LinesRead(|lines|, totalCount)
      && forall i :: 0 <= i < |r.value| ==> ParseLine(lines[i]) == Ok(r.value[i])
    ensures r.Err? ==>
      exists k :: 0 <= k < LinesRead(|lines|, totalCount) && ParseLine(lines[k]) == Err(r.error) &&
        forall i :: 0 <= i < k ==> ParseLine(lines[i]).Ok?
  {
    AllOk(Parsed(lines, LinesRead(|lines|, totalCount)))
  }

  /** With a non-zero count no larger than the file, the list holds exactly
      that many images. */
  lemma {:induction false} CountLimitsList(available: nat, totalCount: int)
    requires Text.InIntRange(totalCount) && 0 < totalCount <= available
    ensures LinesRead(available, totalCount) == totalCount
  {
  }

  // ---------------------------------------------------------- the library

  /** `(size_t) total_count`: a negative `int` wraps to 2^64 plus itself. */
  function SizeT(v: int): (u: nat)
    requires Text.InIntRange(v)
    ensures u % 0x1_0000_0000_0000_0000 == v % 0x1_0000_0000_0000_0000
  {
    if v < 0 then v + 0x1_0000_0000_0000_0000 else v
  }

  /** The `Imagenet` constructor: an image library over the parsed list,
      reading its images under the data path. */
  function NewImagenet(scenario: Flags.Scenario, workload: Workloads.WorkloadName, datapath: string,
                       width: nat, height: nat, channels: nat, totalCount: int, perfCount: int,
                       file: Option<string>, images: map<string, seq<ImageDataset.Vec3b>>)
    : (r: Result<ImageDataset.Qsl>)
    requires Text.InIntRange(totalCount) && Text.InIntRange(perfCount)
    ensures file.None? ==> r == Err(Terminate)
    ensures file.Some? ==>
      var list := ReadImageList(Text.Split(file.value, '\n'), totalCount);
      && (r.Ok? <==> list.Ok?)
      && (r.Err? ==> r.error == list.error)
      && (r.Ok? ==>
            && ImageDataset.Valid(r.value) && r.value.memory.slots == [] && r.value.handle == 0
            && r.value.dataset == Workloads.ImageNet2012 && r.value.totalCount == SizeT(totalCount)
            && r.value.imageList == Names(list.value) && r.value.labels == Labels(list.value))
  {
    if file.None? then Err(Terminate)
    else
      var list :- ReadImageList(Text.Split(file.value, '\n'), totalCount);
      Ok(ImageDataset.NewQsl(scenario, Workloads.ImageNet2012, workload, datapath, width, height, channels,
                             SizeT(totalCount), SizeT(perfCount), Names(list), Labels(list), images))
  }
}
