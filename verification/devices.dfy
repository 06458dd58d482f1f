/** Device-string parsing of src/utils.h: `parse_devices` and
    `parse_value_per_device`, as used when the backend loads a model. */
module Devices {
  import opened Wrappers
  import opened Text

  /** The text after the first ':' (the plugin prefix such as "HETERO:" is
      dropped), or the whole string when there is no ':'. */
  function DeviceList(deviceString: string): (list: string)
    ensures ':' !in deviceString ==> list == deviceString
    ensures ':' in deviceString ==> exists k :: 0 <= k < |deviceString| && deviceString[k] == ':' && ':' !in deviceString[..k] && list == deviceString[k + 1..]
  {
    var k := IndexOf(deviceString, ':');
    assert forall i :: 0 <= i < k ==> deviceString[..k][i] == deviceString[i];
    if k < |deviceString| then deviceString[k + 1..] else deviceString
  }

  /** A piece cut at its first '.' or '(' ("GPU.0" and "CPU(2)" name "GPU" and "CPU"). */
  function DeviceName(piece: string): (name: string)
    ensures name <= piece
    ensures '.' !in name && '(' !in name
    ensures |name| < |piece| ==> piece[|name|] == '.' || piece[|name|] == '('
  {
    var k := IndexOfAny(piece, {'.', '('});
    assert forall i :: 0 <= i < k ==> piece[..k][i] == piece[i];
    piece[..k]
  }

  /** `parse_devices`: one device name per comma-separated piece of the
      device list, in order. */
  function ParseDevices(deviceString: string): (devices: seq<string>)
    ensures var pieces := Split(DeviceList(deviceString), ',');
      && |devices| == |pieces|
      && forall i :: 0 <= i < |devices| ==> devices[i] == DeviceName(pieces[i])
    ensures forall i :: 0 <= i < |devices| ==> '.' !in devices[i] && '(' !in devices[i] && ',' !in devices[i]
  {
    var pieces := Split(DeviceList(deviceString), ',');
    seq(|pieces|, i requires 0 <= i < |pieces| => DeviceName(pieces[i]))
  }

  /** When the device list holds only plain names, `parse_devices` is the
      inverse of joining them with commas. */
  lemma {:induction false} ParseDevicesPlainList(deviceString: string)
    requires var list := DeviceList(deviceString);
      && |list| > 0 && list[|list| - 1] != ','
      && '.' !in list && '(' !in list
    ensures Join(ParseDevices(deviceString), ',') == DeviceList(deviceString)
  {
    JoinSplit(DeviceList(deviceString), ',');
    PlainPieces(deviceString);
  }

  /** Without '.' or '(' in the list, every piece is its own device name. */
  lemma {:induction false} PlainPieces(deviceString: string)
    requires '.' !in DeviceList(deviceString) && '(' !in DeviceList(deviceString)
    ensures ParseDevices(deviceString) == Split(DeviceList(deviceString), ',')
  {
    var list := DeviceList(deviceString);
    var pieces := Split(list, ',');
    forall i | 0 <= i < |pieces|
      ensures DeviceName(pieces[i]) == pieces[i]
    {
      PlainName(list, i);
    }
  }

  lemma {:induction false} PlainName(list: string, i: nat)
    requires '.' !in list && '(' !in list && i < |Split(list, ',')|
    ensures DeviceName(Split(list, ',')[i]) == Split(list, ',')[i]
  {
    var piece := Split(list, ',')[i];
    SplitPiecesAvoid(list, ',', i, '.');
    SplitPiecesAvoid(list, ',', i, '(');
    var k := IndexOfAny(piece, {'.', '('});
    assert piece[..k] == piece;
  }

  // ------------------------------------------------ parse_value_per_device

  /** The value every listed device gets from a bare `<value>` piece. */
  function ToAll(devices: seq<string>, value: string): (m: map<string, string>)
    ensures forall d :: d in m <==> d in devices
    ensures forall d :: d in m ==> m[d] == value
  {
    map d | d in devices :: value
  }

  /** One comma-separated piece, applied to the map built so far:
      `dev:val` sets one listed device (an unlisted one throws
      `logic_error`, after building its message with `pop_back` on the
      space-joined device list, which is undefined for an empty list), a
      bare value sets every device, an empty piece does nothing, and three
      or more ':'-pieces throw `runtime_error`. */
  function ApplyPiece(devices: seq<string>, piece: string, acc: map<string, string>): Result<map<string, string>>
  {
    var parts := Split(piece, ':');
    if |parts| == 2 then
      if parts[0] in devices then Ok(acc[parts[0] := parts[1]])
      else if |devices| == 0 then Err(Unchecked)
      else Err(LogicError)
    else if |parts| == 1 then Ok(acc + ToAll(devices, parts[0]))
    else if |parts| != 0 then Err(RuntimeError)
    else Ok(acc)
  }

  /** The pieces applied from first to last; the first failure stops the loop. */
  function ApplyPieces(devices: seq<string>, pieces: seq<string>): (r: Result<map<string, string>>)
    ensures r.Ok? ==> forall d :: d in r.value ==> d in devices
    decreases |pieces|
  {
    if |pieces| == 0 then Ok(map[])
    else
      match ApplyPieces(devices, pieces[..|pieces| - 1])
      case Err(e) => Err(e)
      case Ok(acc) => ApplyPiece(devices, pieces[|pieces| - 1], acc)
  }

  /** `parse_value_per_device`: "<dev1>:<v1>,<dev2>:<v2>" or just "<v>". */
  function ParseValuePerDevice(devices: seq<string>, values: string): (r: Result<map<string, string>>)
    ensures values == "" ==> r == Ok(map[])
    ensures r.Ok? ==> forall d :: d in r.value ==> d in devices
    ensures r.Err? ==> r.error == LogicError || r.error == RuntimeError || (r.error == Unchecked && |devices| == 0)
  {
    ErrorKinds(devices, Split(values, ','));
    ApplyPieces(devices, Split(values, ','))
  }

  lemma {:induction false} ErrorKinds(devices: seq<string>, pieces: seq<string>)
    ensures var r := ApplyPieces(devices, pieces);
      r.Err? ==> r.error == LogicError || r.error == RuntimeError || (r.error == Unchecked && |devices| == 0)
    decreases |pieces|
  {
    if |pieces| > 0 {
      ErrorKinds(devices, pieces[..|pieces| - 1]);
    }
  }

  /** Reference reading, scanning from the end: the value a device ends up
      with is the one given by the last piece that names it or names no
      device at all. */
  function LastValueFor(devices: seq<string>, pieces: seq<string>, d: string): Option<string>
    decreases |pieces|
  {
    if |pieces| == 0 then None
    else
      var parts := Split(pieces[|pieces| - 1], ':');
      if |parts| == 2 && parts[0] == d then Some(parts[1])
      else if |parts| == 1 && d in devices then Some(parts[0])
      else LastValueFor(devices, pieces[..|pieces| - 1], d)
  }

  /** A successful parse gives every device exactly the value of the last
      piece that applies to it: later pieces overwrite earlier ones. */
  lemma {:induction false} LaterPiecesWin(devices: seq<string>, pieces: seq<string>, d: string)
    requires ApplyPieces(devices, pieces).Ok?
    ensures var m := ApplyPieces(devices, pieces).value;
      && (d in m <==> LastValueFor(devices, pieces, d).Some?)
      && (d in m ==> m[d] == LastValueFor(devices, pieces, d).value)
    decreases |pieces|
  {
    if |pieces| > 0 {
      LaterPiecesWin(devices, pieces[..|pieces| - 1], d);
    }
  }

  /** The pieces that make the parse throw: an unlisted device, or a piece
      with three or more ':'-separated parts. */
  predicate BadPiece(devices: seq<string>, piece: string)
  {
    var parts := Split(piece, ':');
    (|parts| == 2 && parts[0] !in devices) || |parts| >= 3
  }

  /** The parse succeeds exactly when no piece is bad. */
  lemma {:induction false} ParseSucceedsIffNoBadPiece(devices: seq<string>, pieces: seq<string>)
    ensures ApplyPieces(devices, pieces).Ok? <==> forall i :: 0 <= i < |pieces| ==> !BadPiece(devices, pieces[i])
    decreases |pieces|
  {
    if |pieces| > 0 {
      var init := pieces[..|pieces| - 1];
      ParseSucceedsIffNoBadPiece(devices, init);
      assert forall i :: 0 <= i < |init| ==> init[i] == pieces[i];
    }
  }

  /** A lone value with no ',' or ':' is given to every listed device. */
  lemma {:induction false} BareValueAppliesToAll(devices: seq<string>, value: string)
    requires |value| > 0 && ',' !in value && ':' !in value
    ensures ParseValuePerDevice(devices, value) == Ok(ToAll(devices, value))
  {
    assert value[..|value|] == value;
    assert Split(value, ',') == [value];
    assert Split(value, ':') == [value];
    assert [value][..0] == [];
    assert ApplyPiece(devices, value, map[]) == Ok(map[] + ToAll(devices, value));
    assert ApplyPieces(devices, [value]) == ApplyPiece(devices, value, map[]);
    assert map[] + ToAll(devices, value) == ToAll(devices, value);
  }
}
