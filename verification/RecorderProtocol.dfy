/** The recorder's local-socket protocol.

    Commands arrive as frames: a 16-bit size, an event number and that event's arguments in Qt's
    data-stream format (big-endian integers, UTF-16 strings behind a 32-bit byte count).  The reader
    never looks at the size; it relies on the arguments delimiting themselves.  Replies are blocks
    whose size is patched in at the end and whose optional parts are left out.
 */
module RecorderProtocol {
  import opened Sequences
  import opened Wrappers

  type Byte = b: int | 0 <= b < 0x100
  type U16 = n: int | 0 <= n < 0x1_0000
  type U32 = n: int | 0 <= n < 0x1_0000_0000
  type I32 = n: int | -0x8000_0000 <= n < 0x8000_0000

  type Utf16 = u: seq<U16> | |u| <= 0x7FFF_FFFF

  /** A null string and an empty one differ on the wire. */
  datatype QString = Null | Text(units: Utf16) {
    predicate IsEmpty() {
      Null? || units == []
    }
  }

  const NULL_MARK: U32 := 0xFFFF_FFFF

  datatype Size = Size(width: I32, height: I32)

  datatype Rect = Rect(left: I32, top: I32, right: I32, bottom: I32)

  // ---------------------------------------------------------------- the wire format

  function PutU16(n: U16): seq<Byte> { [n / 0x100, n % 0x100] }

  function PutU32(n: U32): seq<Byte> {
    [n / 0x100_0000, n / 0x1_0000 % 0x100, n / 0x100 % 0x100, n % 0x100]
  }

  function PutI32(n: I32): seq<Byte> { PutU32(if n < 0 then n + 0x1_0000_0000 else n) }

  function PutUnits(u: seq<U16>): seq<Byte> {
    if u == [] then [] else PutU16(u[0]) + PutUnits(u[1..])
  }

  function PutString(q: QString): seq<Byte> {
    match q
    case Null => PutU32(NULL_MARK)
    case Text(u) => PutU32(2 * |u|) + PutUnits(u)
  }

  function Pair(hi: int, lo: int): int { hi * 0x100 + lo }

  function Quad(a: int, b: int, c: int, d: int): int {
    a * 0x100_0000 + b * 0x1_0000 + c * 0x100 + d
  }

  function Signed(n: int): int {
    if n >= 0x8000_0000 then n - 0x1_0000_0000 else n
  }

  /** Reading past the end yields zero and uses up what is left. */
  function GetU8(b: seq<Byte>): (Byte, seq<Byte>) {
    if b == [] then (0, []) else (b[0], b[1..])
  }

  function GetU16(b: seq<Byte>): (U16, seq<Byte>) {
    if |b| < 2 then (0, []) else (Pair(b[0], b[1]), b[2..])
  }

  function GetU32(b: seq<Byte>): (U32, seq<Byte>) {
    if |b| < 4 then (0, []) else (Quad(b[0], b[1], b[2], b[3]), b[4..])
  }

  function GetI32(b: seq<Byte>): (I32, seq<Byte>) {
    var (n, rest) := GetU32(b);
    (Signed(n), rest)
  }

  function Units(b: seq<Byte>): (u: seq<U16>)
    requires |b| % 2 == 0
    ensures |u| == |b| / 2
  {
    if b == [] then [] else [Pair(b[0], b[1])] + Units(b[2..])
  }

  /** An odd byte count is corrupt and yields a null string; so does one beyond the data, which
      uses up what is left. */
  function GetString(b: seq<Byte>): (QString, seq<Byte>) {
    var (n, rest) := GetU32(b);
    if n == NULL_MARK then (Null, rest)
    else if n % 2 == 1 then (Null, rest)
    else if n > |rest| then (Null, [])
    else (Text(Units(rest[..n])), rest[n..])
  }

  function GetSize(b: seq<Byte>): (Size, seq<Byte>) {
    var (w, b1) := GetI32(b);
    var (h, b2) := GetI32(b1);
    (Size(w, h), b2)
  }

  function GetRect(b: seq<Byte>): (Rect, seq<Byte>) {
    var (l, b1) := GetI32(b);
    var (t, b2) := GetI32(b1);
    var (r, b3) := GetI32(b2);
    var (m, b4) := GetI32(b3);
    (Rect(l, t, r, m), b4)
  }

  /** Argument types and values. */
  datatype Kind = KString | KSize | KRect | KBool

  datatype Value = VString(s: QString) | VSize(z: Size) | VRect(r: Rect) | VBool(b: bool) {
    function Kind(): Kind {
      match this
      case VString(_) => KString
      case VSize(_) => KSize
      case VRect(_) => KRect
      case VBool(_) => KBool
    }
  }

  function PutValue(v: Value): seq<Byte> {
    match v
    case VString(s) => PutString(s)
    case VSize(z) => PutI32(z.width) + PutI32(z.height)
    case VRect(r) => PutI32(r.left) + (PutI32(r.top) + (PutI32(r.right) + PutI32(r.bottom)))
    case VBool(b) => [if b then 1 else 0]
  }

  function GetValue(k: Kind, b: seq<Byte>): (Value, seq<Byte>) {
    match k
    case KString => var (s, rest) := GetString(b); (VString(s), rest)
    case KSize => var (z, rest) := GetSize(b); (VSize(z), rest)
    case KRect => var (r, rest) := GetRect(b); (VRect(r), rest)
    case KBool => var (n, rest) := GetU8(b); (VBool(n != 0), rest)
  }

  function PutValues(vs: seq<Value>): seq<Byte> {
    if vs == [] then [] else PutValue(vs[0]) + PutValues(vs[1..])
  }

  function GetValues(ks: seq<Kind>, b: seq<Byte>): (seq<Value>, seq<Byte>) {
    if ks == [] then ([], b)
    else
      var (v, b1) := GetValue(ks[0], b);
      var (vs, b2) := GetValues(ks[1..], b1);
      ([v] + vs, b2)
  }

  // ---------------------------------------------------------------- commands

  datatype Command =
    | Initialize(configPath: QString, windowTitle: QString, screenSize: Size, cropRegion: Rect)
    | ScaleVideo(size: Size)
    | CropVideo(rect: Rect)
    | UpdateVideoConfig(cursor: bool, compatibility: bool)
    | ResetAudioInput(deviceId: QString, deviceDesc: QString)
    | ResetAudioOutput(deviceId: QString, deviceDesc: QString)
    | DownmixMonoInput(enable: bool)
    | DownmixMonoOutput(enable: bool)
    | MuteAudioInput(enable: bool)
    | MuteAudioOutput(enable: bool)
    | StartRecording(path: QString)
    | StopRecording(force: bool)
    | StartStreaming(server: QString, key: QString)
    | StopStreaming(force: bool)

  function EventOf(c: Command): Byte {
    match c
    case Initialize(_, _, _, _) => 0
    case ScaleVideo(_) => 1
    case CropVideo(_) => 2
    case UpdateVideoConfig(_, _) => 3
    case ResetAudioInput(_, _) => 4
    case ResetAudioOutput(_, _) => 5
    case DownmixMonoInput(_) => 6
    case DownmixMonoOutput(_) => 7
    case MuteAudioInput(_) => 8
    case MuteAudioOutput(_) => 9
    case StartRecording(_) => 10
    case StopRecording(_) => 11
    case StartStreaming(_, _) => 12
    case StopStreaming(_) => 13
  }

  function Arguments(c: Command): seq<Value> {
    match c
    case Initialize(p, t, z, r) => [VString(p), VString(t), VSize(z), VRect(r)]
    case ScaleVideo(z) => [VSize(z)]
    case CropVideo(r) => [VRect(r)]
    case UpdateVideoConfig(a, b) => [VBool(a), VBool(b)]
    case ResetAudioInput(i, d) => [VString(i), VString(d)]
    case ResetAudioOutput(i, d) => [VString(i), VString(d)]
    case DownmixMonoInput(e) => [VBool(e)]
    case DownmixMonoOutput(e) => [VBool(e)]
    case MuteAudioInput(e) => [VBool(e)]
    case MuteAudioOutput(e) => [VBool(e)]
    case StartRecording(p) => [VString(p)]
    case StopRecording(f) => [VBool(f)]
    case StartStreaming(s, k) => [VString(s), VString(k)]
    case StopStreaming(f) => [VBool(f)]
  }

  /** A frame with whatever size its sender wrote. */
  datatype Frame = Frame(size: U16, command: Command)

  function PutFrame(f: Frame): seq<Byte> {
    PutU16(f.size) + ([EventOf(f.command)] + PutValues(Arguments(f.command)))
  }

  function PutFrames(fs: seq<Frame>): seq<Byte> {
    if fs == [] then [] else PutFrame(fs[0]) + PutFrames(fs[1..])
  }

  function Commands(fs: seq<Frame>): seq<Command> {
    seq(|fs|, i requires 0 <= i < |fs| => fs[i].command)
  }

  // ---------------------------------------------------------------- the reader

  /** The input stream: a cursor into the received data. */
  class DataStream {
    const data: seq<Byte>
    var pos: nat

    ghost predicate Valid()
      reads this
    {
      pos <= |data|
    }

    function Rest(): seq<Byte>
      requires Valid()
      reads this
    {
      data[pos..]
    }

    constructor (data: seq<Byte>)
      ensures Valid() && Rest() == data && this.data == data
    {
      this.data := data;
      pos := 0;
    }

    predicate AtEnd()
      requires Valid()
      reads this
      ensures AtEnd() <==> Rest() == []
    {
      pos == |data|
    }

    method ReadU8() returns (n: Byte)
      requires Valid()
      modifies this
      ensures Valid() && (n, Rest()) == GetU8(old(Rest()))
    {
      if pos == |data| { return 0; }
      n := data[pos];
      pos := pos + 1;
    }

    method ReadU16() returns (n: U16)
      requires Valid()
      modifies this
      ensures Valid() && (n, Rest()) == GetU16(old(Rest()))
    {
      if |data| - pos < 2 {
        pos := |data|;
        assert data[pos..] == [];
        return 0;
      }
      n := Pair(data[pos], data[pos + 1]);
      pos := pos + 2;
    }

    method ReadU32() returns (n: U32)
      requires Valid()
      modifies this
      ensures Valid() && (n, Rest()) == GetU32(old(Rest()))
    {
      if |data| - pos < 4 {
        pos := |data|;
        assert data[pos..] == [];
        return 0;
      }
      n := Quad(data[pos], data[pos + 1], data[pos + 2], data[pos + 3]);
      pos := pos + 4;
    }

    method ReadI32() returns (n: I32)
      requires Valid()
      modifies this
      ensures Valid() && (n, Rest()) == GetI32(old(Rest()))
    {
      var u := ReadU32();
      n := Signed(u);
    }

    method ReadBool() returns (b: bool)
      requires Valid()
      modifies this
      ensures Valid() && (VBool(b), Rest()) == GetValue(KBool, old(Rest()))
    {
      var n := ReadU8();
      b := n != 0;
    }

    method ReadString() returns (s: QString)
      requires Valid()
      modifies this
      ensures Valid() && (VString(s), Rest()) == GetValue(KString, old(Rest()))
    {
      var n := ReadU32();
      if n == NULL_MARK || n % 2 == 1 {
        return Null;
      }
      if n > |data| - pos {
        pos := |data|;
        assert data[pos..] == [];
        return Null;
      }
      assert Rest()[..n] == data[pos..pos + n];
      s := Text(Units(data[pos..pos + n]));
      pos := pos + n;
    }

    method ReadSize() returns (z: Size)
      requires Valid()
      modifies this
      ensures Valid() && (VSize(z), Rest()) == GetValue(KSize, old(Rest()))
    {
      var w := ReadI32();
      var h := ReadI32();
      z := Size(w, h);
    }

    method ReadRect() returns (r: Rect)
      requires Valid()
      modifies this
      ensures Valid() && (VRect(r), Rest()) == GetValue(KRect, old(Rest()))
    {
      var left := ReadI32();
      var top := ReadI32();
      var right := ReadI32();
      var bottom := ReadI32();
      r := Rect(left, top, right, bottom);
    }
  }

  /** The arguments that the reader takes from the stream for each event. */
  function Signature(event: Byte): seq<Kind> {
    match event
    case 0 => [KString, KString, KSize, KRect]
    case 1 => [KSize]
    case 2 => [KRect]
    case 3 => [KBool, KBool]
    case 4 => [KString, KString]
    case 5 => [KString, KString]
    case 6 => [KBool]
    case 7 => [KBool]
    case 8 => [KBool]
    case 9 => [KBool]
    case 10 => [KString]
    case 11 => [KBool]
    case 12 => [KString, KString]
    case 13 => [KBool]
    case _ => []
  }

  /** The command that an event with these arguments emits; unknown events emit nothing. */
  ghost predicate Emits(event: Byte, vs: seq<Value>, out: seq<Command>) {
    if event <= 13 then |out| == 1 && EventOf(out[0]) == event && Arguments(out[0]) == vs
    else out == []
  }

  method ReadArguments(input: DataStream, event: Byte) returns (out: seq<Command>)
    requires input.Valid()
    modifies input
    ensures input.Valid()
    ensures Emits(event, GetValues(Signature(event), old(input.Rest())).0, out)
    ensures input.Rest() == GetValues(Signature(event), old(input.Rest())).1
  {
    ghost var b := input.Rest();
    match event {
      case 0 =>
        InitializeValues(b);
        var configPath := input.ReadString();
        var windowTitle := input.ReadString();
        var screenSize := input.ReadSize();
        var cropRegion := input.ReadRect();
        out := [Initialize(configPath, windowTitle, screenSize, cropRegion)];
      case 1 =>
        OneValue(KSize, b);
        var size := input.ReadSize();
        out := [ScaleVideo(size)];
      case 2 =>
        OneValue(KRect, b);
        var rect := input.ReadRect();
        out := [CropVideo(rect)];
      case 3 =>
        TwoValues(KBool, KBool, b);
        var cursor := input.ReadBool();
        var compatibility := input.ReadBool();
        out := [UpdateVideoConfig(cursor, compatibility)];
      case 4 =>
        TwoValues(KString, KString, b);
        var deviceId := input.ReadString();
        var deviceDesc := input.ReadString();
        out := [ResetAudioInput(deviceId, deviceDesc)];
      case 5 =>
        TwoValues(KString, KString, b);
        var deviceId := input.ReadString();
        var deviceDesc := input.ReadString();
        out := [ResetAudioOutput(deviceId, deviceDesc)];
      case _ =>
        out := ReadControlArguments(input, event);
    }
  }

  method ReadControlArguments(input: DataStream, event: Byte) returns (out: seq<Command>)
    requires input.Valid() && event > 5
    modifies input
    ensures input.Valid()
    ensures Emits(event, GetValues(Signature(event), old(input.Rest())).0, out)
    ensures input.Rest() == GetValues(Signature(event), old(input.Rest())).1
  {
    ghost var b := input.Rest();
    match event {
      case 6 =>
        OneValue(KBool, b);
        var enable := input.ReadBool();
        out := [DownmixMonoInput(enable)];
      case 7 =>
        OneValue(KBool, b);
        var enable := input.ReadBool();
        out := [DownmixMonoOutput(enable)];
      case 8 =>
        OneValue(KBool, b);
        var enable := input.ReadBool();
        out := [MuteAudioInput(enable)];
      case 9 =>
        OneValue(KBool, b);
        var enable := input.ReadBool();
        out := [MuteAudioOutput(enable)];
      case _ =>
        out := ReadOutputArguments(input, event);
    }
  }

  method ReadOutputArguments(input: DataStream, event: Byte) returns (out: seq<Command>)
    requires input.Valid() && event > 9
    modifies input
    ensures input.Valid()
    ensures Emits(event, GetValues(Signature(event), old(input.Rest())).0, out)
    ensures input.Rest() == GetValues(Signature(event), old(input.Rest())).1
  {
    ghost var b := input.Rest();
    match event {
      case 10 =>
        OneValue(KString, b);
        var path := input.ReadString();
        out := [StartRecording(path)];
      case 11 =>
        OneValue(KBool, b);
        var force := input.ReadBool();
        out := [StopRecording(force)];
      case 12 =>
        TwoValues(KString, KString, b);
        var server := input.ReadString();
        var key := input.ReadString();
        out := [StartStreaming(server, key)];
      case 13 =>
        OneValue(KBool, b);
        var force := input.ReadBool();
        out := [StopStreaming(force)];
      case _ =>
        out := [];
    }
  }

  lemma OneValue(k: Kind, b: seq<Byte>)
    ensures var (v, b1) := GetValue(k, b); GetValues([k], b) == ([v], b1)
  {
    var v := GetValue(k, b).0;
    assert [k][1..] == [] && [v] + [] == [v];
  }

  lemma {:induction false} ConcatValues(ks: seq<Kind>, ls: seq<Kind>, b: seq<Byte>)
    ensures var (vs, b1) := GetValues(ks, b); var (ws, b2) := GetValues(ls, b1); GetValues(ks + ls, b) == (vs + ws, b2)
  {
    if ks == [] {
      assert ks + ls == ls && [] + GetValues(ls, b).0 == GetValues(ls, b).0;
    } else {
      var (v, b1) := GetValue(ks[0], b);
      ConcatValues(ks[1..], ls, b1);
      assert (ks + ls)[1..] == ks[1..] + ls;
      var (vs, b2) := GetValues(ks[1..], b1);
      Associative([v], vs, GetValues(ls, b2).0);
    }
  }

  lemma TwoValues(k: Kind, l: Kind, b: seq<Byte>)
    ensures var (v, b1) := GetValue(k, b); var (w, b2) := GetValue(l, b1); GetValues([k, l], b) == ([v, w], b2)
  {
    var (v, b1) := GetValue(k, b);
    ConcatValues([k], [l], b);
    OneValue(k, b);
    OneValue(l, b1);
    assert [k] + [l] == [k, l] && [v] + [GetValue(l, b1).0] == [v, GetValue(l, b1).0];
  }

  lemma InitializeValues(b: seq<Byte>)
    ensures var (p, b1) := GetString(b); var (t, b2) := GetString(b1); var (z, b3) := GetSize(b2); var (r, b4) := GetRect(b3);
            GetValues([KString, KString, KSize, KRect], b) == ([VString(p), VString(t), VSize(z), VRect(r)], b4)
  {
    ConcatValues([KString, KString], [KSize, KRect], b);
    TwoValues(KString, KString, b);
    var (vs, b2) := GetValues([KString, KString], b);
    TwoValues(KSize, KRect, b2);
    var ws := GetValues([KSize, KRect], b2).0;
    assert [KString, KString] + [KSize, KRect] == [KString, KString, KSize, KRect];
    assert vs + ws == [vs[0], vs[1], ws[0], ws[1]];
  }

  lemma EmitsUnique(event: Byte, vs: seq<Value>, out: seq<Command>, out': seq<Command>)
    requires Emits(event, vs, out) && Emits(event, vs, out')
    ensures out == out'
  {
    if event <= 13 {
      assert out[0] == out'[0];
    }
  }

  ghost function Emitted(event: Byte, vs: seq<Value>): seq<Command> {
    if out :| Emits(event, vs, out) then out else []
  }

  /** Every frame uses up at least its size field, so the loop ends on any buffer. */
  lemma {:induction false} GettingShrinks(ks: seq<Kind>, b: seq<Byte>)
    ensures |GetValues(ks, b).1| <= |b|
  {
    if ks != [] {
      GettingShrinks(ks[1..], GetValue(ks[0], b).1);
    }
  }

  /** One round of the reader: its frame's command, if any, and what is left. */
  ghost function Round(b: seq<Byte>): (r: (seq<Command>, seq<Byte>))
    requires b != []
    ensures |r.1| < |b|
  {
    var (event, args) := GetU8(GetU16(b).1);
    var (vs, rest) := GetValues(Signature(event), args);
    GettingShrinks(Signature(event), args);
    (Emitted(event, vs), rest)
  }

  /** What the reader makes of a buffer: size, event and arguments of one frame after the other
      until nothing is left. */
  ghost function Decoded(b: seq<Byte>): seq<Command>
    decreases |b|
  {
    if b == [] then [] else Round(b).0 + Decoded(Round(b).1)
  }

  ghost function Received(b: seq<Byte>): seq<Command> {
    if |b| < 2 then [] else Decoded(b)
  }

  lemma RoundDecodes(out: seq<Command>, rest: seq<Byte>)
    ensures rest != [] ==> out + Round(rest).0 + Decoded(Round(rest).1) == out + Decoded(rest)
  {
    if rest != [] {
      var (now, later) := Round(rest);
      assert Decoded(rest) == now + Decoded(later);
      Associative(out, now, Decoded(later));
    }
  }

  /** Handles one readyRead notification. */
  method OnSocketReadyRead(readData: seq<Byte>) returns (emitted: seq<Command>)
    ensures emitted == Received(readData)
  {
    if |readData| < 2 { return []; }
    emitted := ReadFrames(readData);
  }

  method ReadFrames(readData: seq<Byte>) returns (emitted: seq<Command>)
    requires readData != []
    ensures emitted == Decoded(readData)
  {
    var input := new DataStream(readData);
    emitted := [];
    while true
      invariant input.Valid() && input.Rest() != []
      invariant emitted + Decoded(input.Rest()) == Decoded(readData)
      decreases |input.Rest()|
    {
      ghost var rest := input.Rest();
      var out := ReadFrame(input);
      RoundDecodes(emitted, rest);
      emitted := emitted + out;
      if input.AtEnd() { break; }
    }
    assert emitted + [] == emitted;
  }

  method ReadFrame(input: DataStream) returns (out: seq<Command>)
    requires input.Valid() && input.Rest() != []
    modifies input
    ensures input.Valid() && (out, input.Rest()) == Round(old(input.Rest()))
  {
    var dataSize := input.ReadU16();
    var event := input.ReadU8();
    ghost var vs := GetValues(Signature(event), input.Rest()).0;
    out := ReadArguments(input, event);
    EmitsUnique(event, vs, out, Emitted(event, vs));
  }

  // ---------------------------------------------------------------- round trip

  lemma QuadOfDigits(n: U32)
    ensures Quad(n / 0x100_0000, n / 0x1_0000 % 0x100, n / 0x100 % 0x100, n % 0x100) == n
  {
    assert n / 0x1_0000 == n / 0x100 / 0x100 && n / 0x100_0000 == n / 0x1_0000 / 0x100;
  }

  lemma U32RoundTrip(n: U32, rest: seq<Byte>)
    ensures GetU32(PutU32(n) + rest) == (n, rest)
  {
    QuadOfDigits(n);
    assert (PutU32(n) + rest)[4..] == rest;
  }

  lemma I32RoundTrip(n: I32, rest: seq<Byte>)
    ensures GetI32(PutI32(n) + rest) == (n, rest)
  {
    U32RoundTrip(if n < 0 then n + 0x1_0000_0000 else n, rest);
  }

  lemma {:induction false} UnitsRoundTrip(u: seq<U16>)
    ensures |PutUnits(u)| == 2 * |u| && Units(PutUnits(u)) == u
  {
    if u != [] {
      UnitsRoundTrip(u[1..]);
      assert PutUnits(u)[2..] == PutUnits(u[1..]);
    }
  }

  lemma StringRoundTrip(q: QString, rest: seq<Byte>)
    ensures GetString(PutString(q) + rest) == (q, rest)
  {
    match q {
      case Null => U32RoundTrip(NULL_MARK, rest);
      case Text(u) =>
        var body := PutUnits(u);
        Associative(PutU32(2 * |u|), body, rest);
        U32RoundTrip(2 * |u|, body + rest);
        UnitsRoundTrip(u);
        assert (body + rest)[..2 * |u|] == body && (body + rest)[2 * |u|..] == rest;
    }
  }

  lemma SizeRoundTrip(z: Size, rest: seq<Byte>)
    ensures GetSize(PutI32(z.width) + PutI32(z.height) + rest) == (z, rest)
  {
    Associative(PutI32(z.width), PutI32(z.height), rest);
    I32RoundTrip(z.width, PutI32(z.height) + rest);
    I32RoundTrip(z.height, rest);
  }

  lemma RectRoundTrip(r: Rect, rest: seq<Byte>)
    ensures GetRect(PutI32(r.left) + (PutI32(r.top) + (PutI32(r.right) + PutI32(r.bottom))) + rest) == (r, rest)
  {
    var l, t, h, b := PutI32(r.left), PutI32(r.top), PutI32(r.right), PutI32(r.bottom);
    Associative(l, t + (h + b), rest);
    Associative(t, h + b, rest);
    Associative(h, b, rest);
    I32RoundTrip(r.left, t + (h + (b + rest)));
    I32RoundTrip(r.top, h + (b + rest));
    I32RoundTrip(r.right, b + rest);
    I32RoundTrip(r.bottom, rest);
  }

  lemma ValueRoundTrip(v: Value, rest: seq<Byte>)
    ensures GetValue(v.Kind(), PutValue(v) + rest) == (v, rest)
  {
    match v {
      case VString(s) => StringRoundTrip(s, rest);
      case VSize(z) => SizeRoundTrip(z, rest);
      case VRect(r) => RectRoundTrip(r, rest);
      case VBool(b) => assert ([if b then 1 else 0] + rest)[1..] == rest;
    }
  }

  function Kinds(vs: seq<Value>): seq<Kind> {
    if vs == [] then [] else [vs[0].Kind()] + Kinds(vs[1..])
  }

  lemma {:induction false} ValuesRoundTrip(vs: seq<Value>, rest: seq<Byte>)
    ensures GetValues(Kinds(vs), PutValues(vs) + rest) == (vs, rest)
  {
    if vs == [] {
      assert PutValues(vs) + rest == rest;
    } else {
      Associative(PutValue(vs[0]), PutValues(vs[1..]), rest);
      ValueRoundTrip(vs[0], PutValues(vs[1..]) + rest);
      ValuesRoundTrip(vs[1..], rest);
      assert Kinds(vs)[1..] == Kinds(vs[1..]) && vs == [vs[0]] + vs[1..];
    }
  }

  /** Writers and the reader agree on the arguments of every event. */
  lemma SignatureFits(c: Command)
    ensures Kinds(Arguments(c)) == Signature(EventOf(c))
  {
    var vs := Arguments(c);
    if |vs| > 1 {
      assert Kinds(vs) == [vs[0].Kind()] + ([vs[1].Kind()] + Kinds(vs[1..][1..]));
      if |vs| > 2 {
        var ws := vs[1..][1..];
        assert Kinds(ws) == [ws[0].Kind()] + ([ws[1].Kind()] + Kinds(ws[1..][1..]));
      }
    }
  }

  lemma FrameRoundTrip(f: Frame, rest: seq<Byte>)
    ensures Decoded(PutFrame(f) + rest) == [f.command] + Decoded(rest)
  {
    var c := f.command;
    var vs := Arguments(c);
    var payload := PutValues(vs);
    Associative(PutU16(f.size), [EventOf(c)] + payload, rest);
    Associative([EventOf(c)], payload, rest);
    var b := PutFrame(f) + rest;
    assert b[2..] == [EventOf(c)] + (payload + rest);
    assert ([EventOf(c)] + (payload + rest))[1..] == payload + rest;
    SignatureFits(c);
    ValuesRoundTrip(vs, rest);
    assert Emits(EventOf(c), vs, [c]);
    EmitsUnique(EventOf(c), vs, [c], Emitted(EventOf(c), vs));
  }

  /** Whatever follows whole frames, the reader emits exactly their commands, in order and with
      their arguments, whatever their size fields say; then it goes on with the rest. */
  lemma {:induction false} FramesThenRest(fs: seq<Frame>, rest: seq<Byte>)
    ensures Decoded(PutFrames(fs) + rest) == Commands(fs) + Decoded(rest)
  {
    if fs == [] {
      assert PutFrames(fs) + rest == rest && Commands(fs) + Decoded(rest) == Decoded(rest);
    } else {
      var f, more := fs[0], PutFrames(fs[1..]);
      Associative(PutFrame(f), more, rest);
      FrameRoundTrip(f, more + rest);
      FramesThenRest(fs[1..], rest);
      Associative([f.command], Commands(fs[1..]), Decoded(rest));
      CommandsOfConcat([f], fs[1..]);
      assert fs == [f] + fs[1..] && Commands([f]) == [f.command];
    }
  }

  lemma FramesAreLong(fs: seq<Frame>)
    ensures fs != [] ==> |PutFrames(fs)| >= 3
  {
  }

  lemma ReceivedFrames(fs: seq<Frame>)
    ensures Received(PutFrames(fs)) == Commands(fs)
  {
    FramesThenRest(fs, []);
    FramesAreLong(fs);
    assert PutFrames(fs) + [] == PutFrames(fs) && Commands(fs) + Decoded([]) == Commands(fs);
  }

  function Concat<T>(parts: seq<seq<T>>): seq<T> {
    if parts == [] then [] else parts[0] + Concat(parts[1..])
  }

  ghost function ReceivedInTurn(chunks: seq<seq<Frame>>): seq<Command> {
    if chunks == [] then [] else Received(PutFrames(chunks[0])) + ReceivedInTurn(chunks[1..])
  }

  /** It makes no difference at which frame boundaries the data is cut into notifications. */
  lemma CutsDoNotMatter(chunks: seq<seq<Frame>>)
    ensures ReceivedInTurn(chunks) == Received(PutFrames(Concat(chunks)))
  {
    InTurn(chunks);
    ReceivedFrames(Concat(chunks));
  }

  lemma {:induction false} InTurn(chunks: seq<seq<Frame>>)
    ensures ReceivedInTurn(chunks) == Commands(Concat(chunks))
  {
    if chunks != [] {
      InTurn(chunks[1..]);
      ReceivedFrames(chunks[0]);
      CommandsOfConcat(chunks[0], Concat(chunks[1..]));
    }
  }

  lemma CommandsOfConcat(a: seq<Frame>, b: seq<Frame>)
    ensures Commands(a + b) == Commands(a) + Commands(b)
  {
  }

  // ---------------------------------------------------------------- the wire, byte by byte

  lemma ConsWritten(v: Value, vs: seq<Value>, all: seq<Value>)
    requires all == [v] + vs
    ensures PutValues(all) == PutValue(v) + PutValues(vs)
  {
    assert all[1..] == vs;
  }

  lemma OneWritten(v: Value)
    ensures PutValues([v]) == PutValue(v)
  {
    ConsWritten(v, [], [v]);
    NothingAdded(PutValue(v));
  }

  lemma TwoWritten(v: Value, w: Value)
    ensures PutValues([v, w]) == PutValue(v) + PutValue(w)
  {
    ConsWritten(v, [w], [v, w]);
    OneWritten(w);
  }

  lemma FourWritten(v: Value, w: Value, p: Value, q: Value)
    ensures PutValues([v, w, p, q]) == PutValue(v) + (PutValue(w) + (PutValue(p) + PutValue(q)))
  {
    ConsWritten(v, [w, p, q], [v, w, p, q]);
    ConsWritten(w, [p, q], [w, p, q]);
    TwoWritten(p, q);
  }

  lemma OneFrame(x: Byte, y: Byte, c: Command, args: seq<Byte>, rest: seq<Byte>)
    requires PutValues(Arguments(c)) == args
    ensures Decoded([x, y, EventOf(c)] + args + rest) == [c] + Decoded(rest)
  {
    FrameRoundTrip(Frame(Pair(x, y), c), rest);
    Prefixed(x, y, EventOf(c), args);
  }

  lemma Prefixed(x: Byte, y: Byte, event: Byte, args: seq<Byte>)
    ensures PutU16(Pair(x, y)) + ([event] + args) == [x, y, event] + args
  {
    assert PutU16(Pair(x, y)) == [x, y];
  }

  lemma OneString(x: Byte, y: Byte, event: Byte, c: Command, s: QString, rest: seq<Byte>)
    requires EventOf(c) == event && Arguments(c) == [VString(s)]
    ensures Decoded([x, y, event] + PutString(s) + rest) == [c] + Decoded(rest)
  {
    OneWritten(VString(s));
    OneFrame(x, y, c, PutString(s), rest);
  }

  lemma TwoStrings(x: Byte, y: Byte, event: Byte, c: Command, s: QString, t: QString, rest: seq<Byte>)
    requires EventOf(c) == event && Arguments(c) == [VString(s), VString(t)]
    ensures Decoded([x, y, event] + (PutString(s) + PutString(t)) + rest) == [c] + Decoded(rest)
  {
    TwoWritten(VString(s), VString(t));
    OneFrame(x, y, c, (PutString(s) + PutString(t)), rest);
  }

  lemma OneFlag(x: Byte, y: Byte, event: Byte, c: Command, b: bool, rest: seq<Byte>)
    requires EventOf(c) == event && Arguments(c) == [VBool(b)]
    ensures Decoded([x, y, event] + [if b then 1 else 0] + rest) == [c] + Decoded(rest)
  {
    OneWritten(VBool(b));
    OneFrame(x, y, c, [if b then 1 else 0], rest);
  }

  lemma TwoFlags(x: Byte, y: Byte, event: Byte, c: Command, b: bool, d: bool, rest: seq<Byte>)
    requires EventOf(c) == event && Arguments(c) == [VBool(b), VBool(d)]
    ensures Decoded([x, y, event] + ([if b then 1 else 0] + [if d then 1 else 0]) + rest) == [c] + Decoded(rest)
  {
    TwoWritten(VBool(b), VBool(d));
    OneFrame(x, y, c, ([if b then 1 else 0] + [if d then 1 else 0]), rest);
  }

  lemma OneSize(x: Byte, y: Byte, event: Byte, c: Command, z: Size, rest: seq<Byte>)
    requires EventOf(c) == event && Arguments(c) == [VSize(z)]
    ensures Decoded([x, y, event] + (PutI32(z.width) + PutI32(z.height)) + rest) == [c] + Decoded(rest)
  {
    OneWritten(VSize(z));
    OneFrame(x, y, c, (PutI32(z.width) + PutI32(z.height)), rest);
  }

  lemma OneRect(x: Byte, y: Byte, event: Byte, c: Command, r: Rect, rest: seq<Byte>)
    requires EventOf(c) == event && Arguments(c) == [VRect(r)]
    ensures Decoded([x, y, event] + (PutI32(r.left) + (PutI32(r.top) + (PutI32(r.right) + PutI32(r.bottom)))) + rest) == [c] + Decoded(rest)
  {
    OneWritten(VRect(r));
    OneFrame(x, y, c, (PutI32(r.left) + (PutI32(r.top) + (PutI32(r.right) + PutI32(r.bottom)))), rest);
  }

  lemma InitializeFrame(x: Byte, y: Byte, configPath: QString, windowTitle: QString, width: I32, height: I32,
                        left: I32, top: I32, right: I32, bottom: I32, rest: seq<Byte>)
    ensures Decoded([x, y, 0] +
                    (PutString(configPath) + (PutString(windowTitle) +
                     ((PutI32(width) + PutI32(height)) + (PutI32(left) + (PutI32(top) + (PutI32(right) + PutI32(bottom))))))) +
                    rest) ==
            [Initialize(configPath, windowTitle, Size(width, height), Rect(left, top, right, bottom))] + Decoded(rest)
  {
    FourArguments(x, y, configPath, windowTitle, Size(width, height), Rect(left, top, right, bottom), rest);
  }

  lemma FourArguments(x: Byte, y: Byte, p: QString, t: QString, z: Size, r: Rect, rest: seq<Byte>)
    ensures Decoded([x, y, 0] +
                    (PutString(p) + (PutString(t) +
                     ((PutI32(z.width) + PutI32(z.height)) + (PutI32(r.left) + (PutI32(r.top) + (PutI32(r.right) + PutI32(r.bottom))))))) +
                    rest) == [Initialize(p, t, z, r)] + Decoded(rest)
  {
    FourWritten(VString(p), VString(t), VSize(z), VRect(r));
    OneFrame(x, y, Initialize(p, t, z, r),
             PutString(p) + (PutString(t) +
             ((PutI32(z.width) + PutI32(z.height)) + (PutI32(r.left) + (PutI32(r.top) + (PutI32(r.right) + PutI32(r.bottom)))))), rest);
  }

  lemma ScaleVideoFrame(x: Byte, y: Byte, width: I32, height: I32, rest: seq<Byte>)
    ensures Decoded([x, y, 1] + (PutI32(width) + PutI32(height)) + rest) == [ScaleVideo(Size(width, height))] + Decoded(rest)
  {
    OneSize(x, y, 1, ScaleVideo(Size(width, height)), Size(width, height), rest);
  }

  lemma CropVideoFrame(x: Byte, y: Byte, left: I32, top: I32, right: I32, bottom: I32, rest: seq<Byte>)
    ensures Decoded([x, y, 2] + (PutI32(left) + (PutI32(top) + (PutI32(right) + PutI32(bottom)))) + rest) == [CropVideo(Rect(left, top, right, bottom))] + Decoded(rest)
  {
    OneRect(x, y, 2, CropVideo(Rect(left, top, right, bottom)), Rect(left, top, right, bottom), rest);
  }

  lemma UpdateVideoConfigFrame(x: Byte, y: Byte, cursor: bool, compatibility: bool, rest: seq<Byte>)
    ensures Decoded([x, y, 3] + ([if cursor then 1 else 0] + [if compatibility then 1 else 0]) + rest) == [UpdateVideoConfig(cursor, compatibility)] + Decoded(rest)
  {
    TwoFlags(x, y, 3, UpdateVideoConfig(cursor, compatibility), cursor, compatibility, rest);
  }

  lemma ResetAudioInputFrame(x: Byte, y: Byte, deviceId: QString, deviceDesc: QString, rest: seq<Byte>)
    ensures Decoded([x, y, 4] + (PutString(deviceId) + PutString(deviceDesc)) + rest) == [ResetAudioInput(deviceId, deviceDesc)] + Decoded(rest)
  {
    TwoStrings(x, y, 4, ResetAudioInput(deviceId, deviceDesc), deviceId, deviceDesc, rest);
  }

  lemma ResetAudioOutputFrame(x: Byte, y: Byte, deviceId: QString, deviceDesc: QString, rest: seq<Byte>)
    ensures Decoded([x, y, 5] + (PutString(deviceId) + PutString(deviceDesc)) + rest) == [ResetAudioOutput(deviceId, deviceDesc)] + Decoded(rest)
  {
    TwoStrings(x, y, 5, ResetAudioOutput(deviceId, deviceDesc), deviceId, deviceDesc, rest);
  }

  lemma DownmixMonoInputFrame(x: Byte, y: Byte, enable: bool, rest: seq<Byte>)
    ensures Decoded([x, y, 6] + [if enable then 1 else 0] + rest) == [DownmixMonoInput(enable)] + Decoded(rest)
  {
    OneFlag(x, y, 6, DownmixMonoInput(enable), enable, rest);
  }

  lemma DownmixMonoOutputFrame(x: Byte, y: Byte, enable: bool, rest: seq<Byte>)
    ensures Decoded([x, y, 7] + [if enable then 1 else 0] + rest) == [DownmixMonoOutput(enable)] + Decoded(rest)
  {
    OneFlag(x, y, 7, DownmixMonoOutput(enable), enable, rest);
  }

  lemma MuteAudioInputFrame(x: Byte, y: Byte, enable: bool, rest: seq<Byte>)
    ensures Decoded([x, y, 8] + [if enable then 1 else 0] + rest) == [MuteAudioInput(enable)] + Decoded(rest)
  {
    OneFlag(x, y, 8, MuteAudioInput(enable), enable, rest);
  }

  lemma MuteAudioOutputFrame(x: Byte, y: Byte, enable: bool, rest: seq<Byte>)
    ensures Decoded([x, y, 9] + [if enable then 1 else 0] + rest) == [MuteAudioOutput(enable)] + Decoded(rest)
  {
    OneFlag(x, y, 9, MuteAudioOutput(enable), enable, rest);
  }

  lemma StartRecordingFrame(x: Byte, y: Byte, path: QString, rest: seq<Byte>)
    ensures Decoded([x, y, 10] + PutString(path) + rest) == [StartRecording(path)] + Decoded(rest)
  {
    OneString(x, y, 10, StartRecording(path), path, rest);
  }

  lemma StopRecordingFrame(x: Byte, y: Byte, force: bool, rest: seq<Byte>)
    ensures Decoded([x, y, 11] + [if force then 1 else 0] + rest) == [StopRecording(force)] + Decoded(rest)
  {
    OneFlag(x, y, 11, StopRecording(force), force, rest);
  }

  lemma StartStreamingFrame(x: Byte, y: Byte, server: QString, key: QString, rest: seq<Byte>)
    ensures Decoded([x, y, 12] + (PutString(server) + PutString(key)) + rest) == [StartStreaming(server, key)] + Decoded(rest)
  {
    TwoStrings(x, y, 12, StartStreaming(server, key), server, key, rest);
  }

  lemma StopStreamingFrame(x: Byte, y: Byte, force: bool, rest: seq<Byte>)
    ensures Decoded([x, y, 13] + [if force then 1 else 0] + rest) == [StopStreaming(force)] + Decoded(rest)
  {
    OneFlag(x, y, 13, StopStreaming(force), force, rest);
  }

  /** Events without a meaning take no arguments and are passed over. */
  lemma UnknownFrame(x: Byte, y: Byte, event: Byte, rest: seq<Byte>)
    requires event > 13
    ensures Decoded([x, y, event] + rest) == Decoded(rest)
  {
    var b := [x, y, event] + rest;
    assert b[2..] == [event] + rest;
    UnknownRound(b, event, rest);
    assert [] + Decoded(rest) == Decoded(rest);
  }

  lemma UnknownRound(b: seq<Byte>, event: Byte, rest: seq<Byte>)
    requires event > 13 && |b| > 2 && b[2..] == [event] + rest
    ensures Round(b) == ([], rest)
  {
    assert ([event] + rest)[1..] == rest;
  }

  /** Any byte but zero is true. */
  lemma AnyFlag(b: Byte, rest: seq<Byte>)
    ensures GetValue(KBool, [b] + rest) == (VBool(b != 0), rest)
  {
    assert ([b] + rest)[1..] == rest;
  }

  /** Too little data is ignored; what is left of a frame behind others reads as one with all of its
      missing arguments empty. */
  lemma ShortData(x: Byte, y: Byte)
    ensures Received([]) == [] && Received([x]) == []
    ensures var nothing := Initialize(Text([]), Text([]), Size(0, 0), Rect(0, 0, 0, 0));
            Received([x, y]) == [nothing] && Decoded([x]) == [nothing]
  {
    ReadNothing();
    NothingLeft([x]);
    NothingLeft([x, y]);
  }

  lemma ReadNothing()
    ensures GetValues([KString, KString, KSize, KRect], []) ==
            ([VString(Text([])), VString(Text([])), VSize(Size(0, 0)), VRect(Rect(0, 0, 0, 0))], [])
  {
    InitializeValues([]);
  }

  lemma NothingLeft(b: seq<Byte>)
    requires 1 <= |b| <= 2
    ensures Decoded(b) == [Initialize(Text([]), Text([]), Size(0, 0), Rect(0, 0, 0, 0))]
  {
    var c := Initialize(Text([]), Text([]), Size(0, 0), Rect(0, 0, 0, 0));
    assert GetU16(b).1 == [];
    ReadNothing();
    assert Emits(0, Arguments(c), [c]);
    EmitsUnique(0, Arguments(c), [c], Emitted(0, Arguments(c)));
    assert Round(b) == ([c], []);
    assert [c] + [] == [c];
  }

  /** All numbers are written with the most significant byte first, negative ones as two's
      complement. */
  lemma BigEndian(n: I32)
    ensures |PutI32(n)| == 4
    ensures var b := PutI32(n);
            0x100_0000 * b[0] as int + 0x1_0000 * b[1] as int + 0x100 * b[2] as int + b[3] as int == if n >= 0 then n else n + 0x1_0000_0000
  {
    QuadOfDigits(if n < 0 then n + 0x1_0000_0000 else n);
  }

  /** A text is written as the number of its bytes and two bytes for every unit; a null string as
      four bytes 255. */
  lemma StringBytes(u: Utf16, i: nat)
    requires i < |u|
    ensures PutString(Null) == [0xFF, 0xFF, 0xFF, 0xFF]
    ensures var b := PutString(Text(u));
            && |b| == 4 + 2 * |u| && 0x100_0000 * b[0] as int + 0x1_0000 * b[1] as int + 0x100 * b[2] as int + b[3] as int == 2 * |u|
            && b[4 + 2 * i] == u[i] / 0x100 && b[5 + 2 * i] == u[i] % 0x100
  {
    UnitBytes(u, i);
    BehindHead(PutU32(2 * |u|), PutUnits(u), 2 * i);
    CountInHead(2 * |u|, PutU32(2 * |u|));
  }

  lemma BehindHead(head: seq<Byte>, body: seq<Byte>, k: nat)
    requires |head| == 4 && k + 1 < |body|
    ensures |head + body| == 4 + |body| && (head + body)[..4] == head
    ensures (head + body)[4 + k] == body[k] && (head + body)[5 + k] == body[k + 1]
  {
  }

  lemma CountInHead(n: U32, head: seq<Byte>)
    requires head == PutU32(n)
    ensures |head| == 4
    ensures 0x100_0000 * head[0] as int + 0x1_0000 * head[1] as int + 0x100 * head[2] as int + head[3] as int == n
  {
    QuadOfDigits(n);
  }

  lemma {:induction false} UnitBytes(u: seq<U16>, i: nat)
    requires i < |u|
    ensures |PutUnits(u)| == 2 * |u| && PutUnits(u)[2 * i] == u[i] / 0x100 && PutUnits(u)[2 * i + 1] == u[i] % 0x100
  {
    if i > 0 {
      UnitBytes(u[1..], i - 1);
    } else {
      UnitsRoundTrip(u);
    }
  }

  /** A byte count that is odd or beyond the data makes the string null; the latter uses up what is
      left. */
  lemma CorruptString(n: U32, rest: seq<Byte>)
    requires n != 0xFFFF_FFFF
    ensures n % 2 == 1 ==> GetString(PutU32(n) + rest) == (Null, rest)
    ensures n % 2 == 0 && n > |rest| ==> GetString(PutU32(n) + rest) == (Null, [])
  {
    U32RoundTrip(n, rest);
  }

  // ---------------------------------------------------------------- replies

  /** The arguments of a reply: error code zero and an empty text mean "none". */
  datatype Message = Message(event: int, error: int, text: QString)

  /** What a block says of its message. */
  datatype Reply = Reply(event: Byte, error: Option<Byte>, text: Utf16)

  const ERROR_NONE := 0

  function Body(event: int, error: int, text: QString): seq<Byte> {
    [event % 0x100] + (if error != ERROR_NONE then [error % 0x100] else []) +
    (if text.IsEmpty() then [] else PutString(text))
  }

  function Block(event: int, error: int, text: QString): seq<Byte> {
    PutU16(|Body(event, error, text)| % 0x1_0000) + Body(event, error, text)
  }

  /** Writes the block with a zero size, then seeks back and overwrites it. */
  method SendMessageToServer(writable: bool, event: int, error: int, text: QString) returns (written: seq<Byte>)
    ensures written == if writable then Block(event, error, text) else []
  {
    if !writable { return []; }
    var block := PutU16(0);
    block := block + [event % 0x100];
    if error != ERROR_NONE {
      block := block + [error % 0x100];
    }
    if !text.IsEmpty() {
      block := block + PutString(text);
    }
    Assembled(PutU16(0), event, error, text);
    var size := PutU16((|block| - 2) % 0x1_0000);
    Overwritten(PutU16(0), size, Body(event, error, text));
    written := block[0 := size[0]][1 := size[1]];
  }

  lemma Assembled(size: seq<Byte>, event: int, error: int, text: QString)
    ensures size + [event % 0x100] + (if error != ERROR_NONE then [error % 0x100] else []) +
            (if text.IsEmpty() then [] else PutString(text)) == size + Body(event, error, text)
    ensures size + [event % 0x100] + [] == size + [event % 0x100]
    ensures var b := size + [event % 0x100] + if error != ERROR_NONE then [error % 0x100] else []; b + [] == b
  {
    var e := [event % 0x100];
    var c := if error != ERROR_NONE then [error % 0x100] else [];
    var t := if text.IsEmpty() then [] else PutString(text);
    Associative(size, e, c);
    Associative(size, e + c, t);
  }

  lemma Overwritten(zero: seq<Byte>, size: seq<Byte>, body: seq<Byte>)
    requires |zero| == |size| == 2
    ensures (zero + body)[0 := size[0]][1 := size[1]] == size + body
  {
  }

  lemma BlockParts(size: seq<Byte>, event: Byte, code: seq<Byte>, tail: seq<Byte>, block: seq<Byte>)
    requires |size| == 2 && |code| <= 1 && block == size + ([event] + code + tail)
    ensures |block| >= 3 + |code| && block[2] == event && block[3..3 + |code|] == code && block[3 + |code|..] == tail
    ensures |code| == 1 ==> block[3] == code[0]
  {
  }

  /** The block: two bytes of size, the number of the event, the number of the error unless it is
      zero, and the text unless it is empty. */
  lemma BlockLayout(event: int, error: int, text: QString)
    ensures var block := Block(event, error, text);
            var at := if error == 0 then 3 else 4;
            && |block| >= at && block[2] == event % 0x100 && (error != 0 ==> block[3] == error % 0x100)
            && block[at..] == (if text == Null || text == Text([]) then [] else PutString(text))
            && 0x100 * block[0] as int + block[1] as int == (|block| - 2) % 0x1_0000
  {
    SizeFieldHonest(event, error, text);
    BlockParts(PutU16(|Body(event, error, text)| % 0x1_0000), event % 0x100, if error != ERROR_NONE then [error % 0x100] else [],
               if text.IsEmpty() then [] else PutString(text), Block(event, error, text));
  }

  /** The first two bytes carry the length of what follows exactly when that fits 16 bits. */
  lemma SizeFieldHonest(event: int, error: int, text: QString)
    ensures var block := Block(event, error, text);
            && GetU16(block) == ((|block| - 2) % 0x1_0000, block[2..])
            && (GetU16(block).0 == |block| - 2 <==> |block| - 2 < 0x1_0000)
  {
    FieldHonest(Body(event, error, text));
  }

  lemma FieldHonest(body: seq<Byte>)
    ensures var block := PutU16(|body| % 0x1_0000) + body;
            && GetU16(block) == ((|block| - 2) % 0x1_0000, block[2..])
            && (GetU16(block).0 == |block| - 2 <==> |block| - 2 < 0x1_0000)
  {
    U16RoundTrip(|body| % 0x1_0000, body);
    assert (PutU16(|body| % 0x1_0000) + body)[2..] == body;
  }

  lemma U16RoundTrip(n: U16, rest: seq<Byte>)
    ensures GetU16(PutU16(n) + rest) == (n, rest)
  {
    assert (PutU16(n) + rest)[2..] == rest;
  }

  /** Event and error number are cut to a byte, and an empty text and none look the same. */
  function Seen(m: Message): Reply {
    Reply(m.event % 0x100, if m.error == ERROR_NONE then None else Some(m.error % 0x100), UnitsOf(m.text))
  }

  function UnitsOf(q: QString): Utf16 {
    match q
    case Null => []
    case Text(u) => u
  }

  /** Reads a body back: the parity of its length tells whether there is an error code. */
  function ParsedBody(b: seq<Byte>): Reply
    requires b != []
  {
    ParsedRest(b[0], b[1..])
  }

  function ParsedRest(event: Byte, r: seq<Byte>): Reply {
    var coded := |r| % 2 == 1;
    Reply(event, if coded then Some(r[0]) else None, ParsedText(if coded then r[1..] else r))
  }

  function ParsedText(tail: seq<Byte>): Utf16 {
    if tail == [] then [] else UnitsOf(GetString(tail).0)
  }

  function BlockOf(m: Message): seq<Byte> {
    Block(m.event, m.error, m.text)
  }

  function BodyOf(m: Message): seq<Byte> {
    Body(m.event, m.error, m.text)
  }

  lemma BodyRoundTrip(m: Message)
    ensures ParsedBody(BodyOf(m)) == Seen(m)
  {
    var tail := if m.text.IsEmpty() then [] else PutString(m.text);
    BodyParts(m, tail);
    TailRoundTrip(UnitsOf(m.text), tail);
    ParsedParts(Seen(m), BodyOf(m)[1..], tail);
  }

  lemma ParsedParts(reply: Reply, r: seq<Byte>, tail: seq<Byte>)
    requires |tail| % 2 == 0 && ParsedText(tail) == reply.text
    requires if reply.error.Some? then |r| == 1 + |tail| && r[0] == reply.error.value && r[1..] == tail else r == tail
    ensures ParsedRest(reply.event, r) == reply
  {
    assert |r| % 2 == 1 <==> reply.error.Some?;
  }

  lemma BodyParts(m: Message, tail: seq<Byte>)
    requires tail == if m.text.IsEmpty() then [] else PutString(m.text)
    ensures BodyOf(m) != [] && BodyOf(m)[0] == Seen(m).event
    ensures var r := BodyOf(m)[1..];
            if m.error != ERROR_NONE then |r| == 1 + |tail| && r[0] == m.error % 0x100 && r[1..] == tail else r == tail
  {
    if m.error != ERROR_NONE {
      assert BodyOf(m) == [m.event % 0x100] + [m.error % 0x100] + tail;
    } else {
      assert BodyOf(m) == [m.event % 0x100] + [] + tail;
    }
  }

  /** A text takes an even number of bytes. */
  lemma TailRoundTrip(text: Utf16, tail: seq<Byte>)
    requires tail == if text == [] then [] else PutString(Text(text))
    ensures |tail| % 2 == 0 && ParsedText(tail) == text
  {
    if text != [] {
      TextRoundTrip(text, tail);
    }
  }

  lemma TextRoundTrip(text: Utf16, tail: seq<Byte>)
    requires tail == PutString(Text(text))
    ensures |tail| % 2 == 0 && ParsedText(tail) == text
  {
    StringLength(text);
    TextReadBack(text, tail);
    ParsedTail(text, tail);
  }

  lemma TextReadBack(text: Utf16, tail: seq<Byte>)
    requires tail == PutString(Text(text))
    ensures GetString(tail).0 == Text(text)
  {
    StringRoundTrip(Text(text), []);
    NothingAdded(tail);
  }

  lemma ParsedTail(text: Utf16, tail: seq<Byte>)
    requires |tail| == 4 + 2 * |text| && GetString(tail).0 == Text(text)
    ensures |tail| % 2 == 0 && ParsedText(tail) == text
  {
  }

  lemma StringLength(text: Utf16)
    ensures |PutString(Text(text))| == 4 + 2 * |text|
  {
    UnitsRoundTrip(text);
  }

  lemma NothingAdded(b: seq<Byte>)
    ensures b + [] == b
  {
  }

  /** Two messages share a block exactly if their events agree in the low byte, both or none have an
      error code and the codes agree in the low byte, and their texts agree, none being as good as
      an empty one. */
  lemma BlocksAgreeExactly(m: Message, m': Message)
    ensures BlockOf(m) == BlockOf(m') <==>
              && m.event % 0x100 == m'.event % 0x100
              && (m.error == ERROR_NONE <==> m'.error == ERROR_NONE) && m.error % 0x100 == m'.error % 0x100
              && UnitsOf(m.text) == UnitsOf(m'.text)
  {
    assert BlockOf(m)[2..] == BodyOf(m) && BlockOf(m')[2..] == BodyOf(m');
    BodyRoundTrip(m);
    BodyRoundTrip(m');
    if Seen(m) == Seen(m') {
      assert m.text.IsEmpty() <==> UnitsOf(m.text) == [];
      assert m'.text.IsEmpty() <==> UnitsOf(m'.text) == [];
    }
  }

  /** Although parts are left out, different messages within a byte have different blocks. */
  lemma BlocksAreInjective(m: Message, m': Message)
    requires 0 <= m.event < 0x100 && 0 <= m'.event < 0x100 && 0 <= m.error < 0x100 && 0 <= m'.error < 0x100
    requires BlockOf(m) == BlockOf(m')
    ensures m.event == m'.event && m.error == m'.error && UnitsOf(m.text) == UnitsOf(m'.text)
  {
    BlocksAgreeExactly(m, m');
  }

  function PutBlocks(ms: seq<Message>): seq<Byte> {
    if ms == [] then [] else BlockOf(ms[0]) + PutBlocks(ms[1..])
  }

  /** What a reader that goes by the size fields cuts the data into. */
  function Bodies(b: seq<Byte>): Option<seq<seq<Byte>>>
    decreases |b|
  {
    if b == [] then Some([])
    else if |b| < 2 then None
    else
      var (n, rest) := GetU16(b);
      if n > |rest| then None
      else
        match Bodies(rest[n..])
        case Some(bodies) => Some([rest[..n]] + bodies)
        case None => None
  }

  function PutBodies(bodies: seq<seq<Byte>>): seq<Byte> {
    if bodies == [] then [] else PutU16(|bodies[0]| % 0x1_0000) + bodies[0] + PutBodies(bodies[1..])
  }

  ghost predicate AllFit(bodies: seq<seq<Byte>>) {
    forall i :: 0 <= i < |bodies| ==> |bodies[i]| < 0x1_0000
  }

  lemma AllFitCons(bodies: seq<seq<Byte>>)
    requires bodies != []
    ensures AllFit(bodies) <==> |bodies[0]| < 0x1_0000 && AllFit(bodies[1..])
  {
    assert bodies == [bodies[0]] + bodies[1..];
    assert forall i :: 0 <= i < |bodies| - 1 ==> bodies[1..][i] == bodies[i + 1];
  }

  /** A reader that goes by the size fields recovers the bodies exactly if their sizes fit. */
  lemma {:induction false} BodiesRoundTrip(bodies: seq<seq<Byte>>)
    ensures Bodies(PutBodies(bodies)) == Some(bodies) <==> AllFit(bodies)
  {
    if bodies == [] {
      NoBodies(bodies);
    } else {
      BodiesRoundTrip(bodies[1..]);
      HeadOfBodies(bodies[0], PutBodies(bodies[1..]), PutBodies(bodies));
      BodiesStep(bodies, PutBodies(bodies), PutBodies(bodies[1..]));
    }
  }

  lemma NoBodies(bodies: seq<seq<Byte>>)
    requires bodies == []
    ensures Bodies(PutBodies(bodies)) == Some(bodies)
  {
  }

  lemma BodiesStep(bodies: seq<seq<Byte>>, b: seq<Byte>, rest: seq<Byte>)
    requires bodies != [] && |b| >= 2 && GetU16(b) == (|bodies[0]| % 0x1_0000, bodies[0] + rest)
    requires Bodies(rest) == Some(bodies[1..]) <==> AllFit(bodies[1..])
    ensures Bodies(b) == Some(bodies) <==> AllFit(bodies)
  {
    AllFitCons(bodies);
    if |bodies[0]| < 0x1_0000 {
      HeadFits(bodies, b, rest);
    } else {
      HeadTooLong(bodies, b, rest);
    }
  }

  lemma HeadFits(bodies: seq<seq<Byte>>, b: seq<Byte>, rest: seq<Byte>)
    requires bodies != [] && |b| >= 2 && GetU16(b) == (|bodies[0]|, bodies[0] + rest)
    ensures Bodies(b) == Some(bodies) <==> Bodies(rest) == Some(bodies[1..])
  {
    FirstFits(b, bodies[0], bodies[1..], rest);
    assert [bodies[0]] + bodies[1..] == bodies;
  }

  /** A size that wraps cuts the body short. */
  lemma HeadTooLong(bodies: seq<seq<Byte>>, b: seq<Byte>, rest: seq<Byte>)
    requires bodies != [] && |bodies[0]| >= 0x1_0000
    requires |b| >= 2 && GetU16(b) == (|bodies[0]| % 0x1_0000, bodies[0] + rest)
    ensures Bodies(b) != Some(bodies)
  {
    FirstTooLong(b, bodies[0], rest);
  }

  lemma FirstFits(b: seq<Byte>, body: seq<Byte>, more: seq<seq<Byte>>, rest: seq<Byte>)
    requires |b| >= 2 && GetU16(b) == (|body|, body + rest)
    ensures Bodies(b) == Some([body] + more) <==> Bodies(rest) == Some(more)
  {
    FirstBody(b, body, rest);
    ConsEqual(body, Bodies(rest), more);
  }

  lemma ConsEqual(body: seq<Byte>, parsed: Option<seq<seq<Byte>>>, more: seq<seq<Byte>>)
    ensures parsed.Some? ==> ([body] + parsed.value == [body] + more <==> parsed.value == more)
  {
    if parsed.Some? && [body] + parsed.value == [body] + more {
      assert ([body] + parsed.value)[1..] == parsed.value && ([body] + more)[1..] == more;
    }
  }

  lemma FirstTooLong(b: seq<Byte>, body: seq<Byte>, rest: seq<Byte>)
    requires |body| >= 0x1_0000 && |b| >= 2 && GetU16(b) == (|body| % 0x1_0000, body + rest)
    ensures Bodies(b).Some? ==> Bodies(b).value != [] && |Bodies(b).value[0]| < |body|
  {
  }

  lemma HeadOfBodies(body: seq<Byte>, rest: seq<Byte>, b: seq<Byte>)
    requires b == PutU16(|body| % 0x1_0000) + body + rest
    ensures |b| >= 2 && GetU16(b) == (|body| % 0x1_0000, body + rest)
  {
    Associative(PutU16(|body| % 0x1_0000), body, rest);
    U16RoundTrip(|body| % 0x1_0000, body + rest);
  }

  lemma FirstBody(b: seq<Byte>, body: seq<Byte>, rest: seq<Byte>)
    requires |b| >= 2 && GetU16(b) == (|body|, body + rest)
    ensures Bodies(b) == match Bodies(rest) case Some(bodies) => Some([body] + bodies) case None => None
  {
    Halves(body, rest);
  }

  lemma Halves(a: seq<Byte>, b: seq<Byte>)
    ensures (a + b)[..|a|] == a && (a + b)[|a|..] == b
  {
  }

  function BodiesOf(ms: seq<Message>): seq<seq<Byte>> {
    seq(|ms|, i requires 0 <= i < |ms| => BodyOf(ms[i]))
  }

  lemma {:induction false} BlocksHoldBodies(ms: seq<Message>)
    ensures PutBlocks(ms) == PutBodies(BodiesOf(ms))
  {
    if ms != [] {
      BlocksHoldBodies(ms[1..]);
      assert BodiesOf(ms)[1..] == BodiesOf(ms[1..]);
    }
  }

  /** A sequence of replies is recovered by going by the size fields exactly if all sizes fit. */
  lemma RepliesRoundTrip(ms: seq<Message>)
    ensures Bodies(PutBlocks(ms)) == Some(BodiesOf(ms)) <==> AllFit(BodiesOf(ms))
    ensures AllFit(BodiesOf(ms)) <==> forall i :: 0 <= i < |ms| ==> |BodyOf(ms[i])| < 0x1_0000
    ensures forall i :: 0 <= i < |ms| ==> BodiesOf(ms)[i] != [] && ParsedBody(BodiesOf(ms)[i]) == Seen(ms[i])
  {
    BlocksHoldBodies(ms);
    BodiesRoundTrip(BodiesOf(ms));
    assert forall i :: 0 <= i < |ms| ==> BodiesOf(ms)[i] == BodyOf(ms[i]);
    forall i | 0 <= i < |ms|
      ensures BodiesOf(ms)[i] != [] && ParsedBody(BodiesOf(ms)[i]) == Seen(ms[i])
    {
      BodyRoundTrip(ms[i]);
    }
  }
}
