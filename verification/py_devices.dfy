/** The Python variants of the device-string parsers
    (python/3d-unet-kits19/utils.py). They differ from the C++ ones: the
    plugin prefix is kept as the first entry, pieces are cut with Python's
    `str.split` (so empty pieces survive), a leading '-' is stripped instead
    of a '.' or '(' suffix, and malformed value pieces are ignored. */
module PyDevices {
  import opened Wrappers
  import opened Text
  import Devices

  /** `device_string.partition(":")[0]`: the text before the first ':'. */
  function TargetDevice(deviceString: string): (target: string)
    ensures target <= deviceString
    ensures ':' !in target
    ensures |target| < |deviceString| ==> deviceString[|target|] == ':'
  {
    deviceString[..IndexOf(deviceString, ':')]
  }

  /** One hardware-device piece: `hw_device[0]` raises IndexError on an
      empty piece; a single leading '-' is dropped. */
  function HwDevice(piece: string): (r: Result<string>)
    ensures r.Err? <==> piece == ""
    ensures r.Err? ==> r.error == IndexError
    ensures r.Ok? && piece[0] == '-' ==> r.value == piece[1..]
    ensures r.Ok? && piece[0] != '-' ==> r.value == piece
  {
    if |piece| == 0 then Err(IndexError)
    else if piece[0] == '-' then Ok(piece[1..])
    else Ok(piece)
  }

  /** The pieces converted in order; the first empty one raises. */
  function HwDevices(pieces: seq<string>): (r: Result<seq<string>>)
    ensures r.Ok? <==> forall i :: 0 <= i < |pieces| ==> pieces[i] != ""
    ensures r.Err? ==> r.error == IndexError
    ensures r.Ok? ==> (|r.value| == |pieces|
      && forall i :: 0 <= i < |pieces| ==> Ok(r.value[i]) == HwDevice(pieces[i]))
  {
    if |pieces| == 0 then Ok([])
    else
      var head :- HwDevice(pieces[0]);
      var tail :- HwDevices(pieces[1..]);
      Ok([head] + tail)
  }

  /** `parse_devices`: the target device, then, when the string has a ':',
      one entry per comma-separated piece after it. */
  function ParseDevices(deviceString: string): (r: Result<seq<string>>)
    ensures ':' !in deviceString ==> r == Ok([deviceString])
    ensures r.Ok? ==> |r.value| >= 1 && r.value[0] == TargetDevice(deviceString)
    ensures ':' in deviceString ==> var hw := PySplit(deviceString[IndexOf(deviceString, ':') + 1..], ',');
      && (r.Ok? <==> forall i :: 0 <= i < |hw| ==> hw[i] != "")
      && (r.Err? ==> r.error == IndexError)
      && (r.Ok? ==> |r.value| == 1 + |hw| && forall i :: 0 <= i < |hw| ==> Ok(r.value[i + 1]) == HwDevice(hw[i]))
  {
    var k := IndexOf(deviceString, ':');
    if k == |deviceString| then
      assert deviceString[..k] == deviceString;
      Ok([deviceString])
    else
      match HwDevices(PySplit(deviceString[k + 1..], ','))
      case Err(e) => Err(e)
      case Ok(hw) => Ok([deviceString[..k]] + hw)
  }

  /** A device list of plain names: non-empty pieces without '.', '(' or
      '-', and no trailing comma. */
  predicate PlainList(list: string)
  {
    && |list| > 0 && list[|list| - 1] != ','
    && '.' !in list && '(' !in list && '-' !in list
    && forall i :: 0 <= i < |Split(list, ',')| ==> Split(list, ',')[i] != ""
  }

  /** The two `parse_devices` agree on the hardware list whenever it is made
      of plain names: the Python result is the plugin name followed by the C++ one. */
  lemma {:induction false} ParseDevicesAgree(deviceString: string)
    requires ':' in deviceString
    requires PlainList(deviceString[IndexOf(deviceString, ':') + 1..])
    ensures ParseDevices(deviceString).Ok?
    ensures ParseDevices(deviceString).value == [TargetDevice(deviceString)] + Devices.ParseDevices(deviceString)
  {
    var k := IndexOf(deviceString, ':');
    var list := deviceString[k + 1..];
    assert Devices.DeviceList(deviceString) == list;
    PySplitVersusSplit(list, ',');
    var pieces := Split(list, ',');
    Devices.PlainPieces(deviceString);
    forall i | 0 <= i < |pieces|
      ensures HwDevice(pieces[i]) == Ok(pieces[i])
    {
      PlainHwPiece(list, i);
    }
    var r := ParseDevices(deviceString).value;
    assert r[1..] == pieces;
  }

  /** A non-empty piece of a list without '-' is kept as it is. */
  lemma {:induction false} PlainHwPiece(list: string, i: nat)
    requires '-' !in list && i < |Split(list, ',')| && Split(list, ',')[i] != ""
    ensures HwDevice(Split(list, ',')[i]) == Ok(Split(list, ',')[i])
  {
    var piece := Split(list, ',')[i];
    SplitPiecesAvoid(list, ',', i, '-');
    assert piece[0] in piece;
  }

  // ------------------------------------------------ parse_value_per_device

  /** One piece: `dev:val` with a listed device sets it, with an unlisted one
      raises; a bare value sets every device; three or more parts are
      skipped. The `not device_value_vec` branch is kept although `str.split`
      never returns an empty list. */
  function ApplyPiece(devices: seq<string>, piece: string, acc: map<string, string>): Result<map<string, string>>
  {
    var parts := PySplit(piece, ':');
    if |parts| == 2 then
      if parts[0] in devices then Ok(acc[parts[0] := parts[1]]) else Err(PyException)
    else if |parts| == 1 then Ok(acc + Devices.ToAll(devices, parts[0]))
    else if |parts| == 0 then Err(PyException)
    else Ok(acc)
  }

  function ApplyPieces(devices: seq<string>, pieces: seq<string>): (r: Result<map<string, string>>)
    ensures r.Ok? ==> forall d :: d in r.value ==> d in devices
    decreases |pieces|
  {
    if |pieces| == 0 then Ok(map[])
    else
      match ApplyPieces(devices, pieces[..|pieces| - 1])
      case Err(e) => Err(e)
      case Ok(acc) => ApplyPiece(devices, pieces[|pieces| - 1], acc)
  }

  /** `parse_value_per_device`; `None` and "" give an empty dict. The
      `value_type` argument is unused by the function and left out. */
  function ParseValuePerDevice(devices: seq<string>, values: Option<string>): (r: Result<map<string, string>>)
    ensures values == None || values == Some("") ==> r == Ok(map[])
    ensures r.Ok? ==> forall d :: d in r.value ==> d in devices
  {
    if values == None || values == Some("") then Ok(map[])
    else ApplyPieces(devices, PySplit(values.value, ','))
  }

  /** The only failure is a `dev:val` piece naming an unlisted device:
      the "Unknown string format" branch cannot be reached, and pieces with
      three or more parts never fail. */
  lemma {:induction false} FailsIffUnknownDevice(devices: seq<string>, pieces: seq<string>)
    ensures ApplyPieces(devices, pieces).Err? <==>
      exists i :: 0 <= i < |pieces| && |PySplit(pieces[i], ':')| == 2 && PySplit(pieces[i], ':')[0] !in devices
    ensures ApplyPieces(devices, pieces).Err? ==> ApplyPieces(devices, pieces).error == PyException
    decreases |pieces|
  {
    if |pieces| > 0 {
      var init := pieces[..|pieces| - 1];
      FailsIffUnknownDevice(devices, init);
      assert forall i :: 0 <= i < |init| ==> init[i] == pieces[i];
    }
  }

  /** Reference reading from the end, as for the C++ parser, except that
      pieces with three or more parts apply to no device. */
  function LastValueFor(devices: seq<string>, pieces: seq<string>, d: string): Option<string>
    decreases |pieces|
  {
    if |pieces| == 0 then None
    else
      var parts := PySplit(pieces[|pieces| - 1], ':');
      if |parts| == 2 && parts[0] == d then Some(parts[1])
      else if |parts| == 1 && d in devices then Some(parts[0])
      else LastValueFor(devices, pieces[..|pieces| - 1], d)
  }

  /** On success every device holds the value of the last piece that applies to it. */
  lemma {:induction false} LaterPiecesWin(devices: seq<string>, pieces: seq<string>, d: string)
    requires ApplyPieces(devices, pieces).Ok?
    ensures var m := ApplyPieces(devices, pieces).value;
      && (d in m <==> LastValueFor(devices, pieces, d).Some?)
      && (d in m ==> m[d] == LastValueFor(devices, pieces, d).value)
    decreases |pieces|
  {
    if |pieces| > 0 {
      LaterPiecesWin(devices, pieces[..|pieces| - 1], d);
    }
  }
}
