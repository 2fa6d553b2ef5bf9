/** The frame in which a second instance of the client hands its
    command-line arguments to the running one: the arguments, joined with
    '\n' and encoded as UTF-8, are written after a two-byte little-endian
    length into a shared region of 65536 bytes; the running instance reads
    the length, reads that many bytes and splits their text on '\n'. */
module ArgumentFrame {
  import opened Common
  import opened Utf8

  /** The size of the shared region. */
  const RegionSize: nat := 65536

  /** Where the payload starts, after the length. */
  const PayloadOffset: nat := 2

  // ---------------------------------------------------------------------
  // Joining and splitting the argument text
  // ---------------------------------------------------------------------

  /** `string.Join("\n", args)`. */
  function Join(args: seq<string>): (r: string)
    ensures |args| > 0 ==> |args[0]| <= |r| && r[..|args[0]|] == args[0]
    ensures |args| > 1 ==> |args[0]| < |r| && r[|args[0]|] == '\n'
  {
    if |args| == 0 then ""
    else if |args| == 1 then args[0]
    else args[0] + "\n" + Join(args[1..])
  }

  /** The first position of `c` in `s`, if any. */
  function IndexOf(s: string, c: char): (r: Option<nat>)
    ensures r.Some? ==> r.value < |s| && s[r.value] == c && c !in s[..r.value]
    ensures r.None? ==> c !in s
  {
    if s == [] then None
    else if s[0] == c then Some(0)
    else
      match IndexOf(s[1..], c)
      case None => None
      case Some(i) =>
        assert s[..i + 1] == [s[0]] + s[1..][..i];
        Some(i + 1)
  }

  /** `s.Split('\n')`: the pieces between newlines, empty ones included. */
  function Split(s: string): (parts: seq<string>)
    ensures |parts| >= 1
    ensures forall k :: 0 <= k < |parts| ==> '\n' !in parts[k]
    decreases |s|
  {
    match IndexOf(s, '\n')
    case None => [s]
    case Some(i) => [s[..i]] + Split(s[i + 1..])
  }

  /** The newlines inside the arguments themselves. */
  function NewlinesIn(args: seq<string>): (n: nat)
    ensures n == 0 <==> forall k :: 0 <= k < |args| ==> '\n' !in args[k]
  {
    if args == [] then 0 else multiset(args[0])['\n'] + NewlinesIn(args[1..])
  }

  /** When `a` holds no newline, the first newline of `a + "\n" + b` is the
      one after `a`. */
  lemma FirstNewlineAfter(a: string, b: string)
    requires '\n' !in a
    ensures IndexOf(a + "\n" + b, '\n') == Some(|a|)
  {
    var s := a + "\n" + b;
    assert s[|a|] == '\n';
    assert forall i :: 0 <= i < |a| ==> s[i] == a[i];
  }

  /** A newline-free text followed by a newline is the first piece. */
  lemma SplitAfterFirst(a: string, rest: string)
    requires '\n' !in a
    ensures Split(a + "\n" + rest) == [a] + Split(rest)
  {
    var s := a + "\n" + rest;
    FirstNewlineAfter(a, rest);
    assert s[..|a|] == a;
    assert s[|a| + 1..] == rest;
  }

  /** Splitting undoes joining, for at least one argument and no argument
      holding a newline. */
  lemma {:induction false} SplitJoin(args: seq<string>)
    requires |args| >= 1 && NewlinesIn(args) == 0
    ensures Split(Join(args)) == args
  {
    if |args| == 1 {
      assert Join(args) == args[0];
    } else {
      assert NewlinesIn(args) == multiset(args[0])['\n'] + NewlinesIn(args[1..]);
      SplitAfterFirst(args[0], Join(args[1..]));
      SplitJoin(args[1..]);
      assert args == [args[0]] + args[1..];
    }
  }

  /** Joining undoes splitting, for every text. */
  lemma {:induction false} JoinSplit(s: string)
    ensures Join(Split(s)) == s
    decreases |s|
  {
    match IndexOf(s, '\n')
    case None =>
    case Some(i) =>
      JoinSplit(s[i + 1..]);
      var parts := Split(s);
      assert parts[1..] == Split(s[i + 1..]);
      assert s == s[..i] + "\n" + s[i + 1..];
  }

  /** A text splits into one more piece than it has newlines. */
  lemma {:induction false} SplitCount(s: string)
    ensures |Split(s)| == 1 + multiset(s)['\n']
    decreases |s|
  {
    match IndexOf(s, '\n')
    case None =>
    case Some(i) =>
      SplitCount(s[i + 1..]);
      assert s == s[..i] + [s[i]] + s[i + 1..];
      assert multiset(s[..i])['\n'] == 0;
  }

  /** Joining adds one newline between each two arguments. */
  lemma {:induction false} JoinCount(args: seq<string>)
    requires |args| >= 1
    ensures multiset(Join(args))['\n'] == |args| - 1 + NewlinesIn(args)
  {
    if |args| > 1 {
      JoinCount(args[1..]);
    }
  }

  /** The round trip of the argument text holds exactly when no argument
      holds a newline. */
  lemma SplitJoinIff(args: seq<string>)
    requires |args| >= 1
    ensures Split(Join(args)) == args <==> NewlinesIn(args) == 0
  {
    if NewlinesIn(args) == 0 {
      SplitJoin(args);
    } else {
      SplitCount(Join(args));
      JoinCount(args);
    }
  }

  // ---------------------------------------------------------------------
  // The frame in the shared region
  // ---------------------------------------------------------------------

  /** The length field: `(ushort)` of the payload length. */
  function LengthField(payloadLength: nat): (n: nat)
    ensures n < 0x1_0000
    ensures payloadLength < 0x1_0000 ==> n == payloadLength
  {
    payloadLength % 0x1_0000
  }

  /** Whether the payload fits after the length field; `WriteArray` throws
      otherwise, once the length field has been written. */
  predicate Fits(payload: seq<byte>) {
    PayloadOffset + |payload| <= RegionSize
  }

  /** The region after a second instance wrote `payload`: the length field
      little-endian at offset 0, and the payload from offset 2 when it
      fits; every other byte as before. */
  function FrameAfterWrite(region: seq<byte>, payload: seq<byte>): (r: seq<byte>)
    requires |region| == RegionSize
    ensures |r| == RegionSize
  {
    var length := LengthField(|payload|);
    seq(RegionSize, i requires 0 <= i < RegionSize =>
      if i == 0 then length % 0x100
      else if i == 1 then length / 0x100
      else if Fits(payload) && i < PayloadOffset + |payload| then payload[i - PayloadOffset]
      else region[i])
  }

  /** `ReadUInt16(0)`. */
  function FrameLength(region: seq<byte>): (n: nat)
    requires |region| == RegionSize
    ensures n < 0x1_0000
  {
    region[0] as int + 0x100 * region[1] as int
  }

  function Zeros(n: nat): (z: seq<byte>)
    ensures |z| == n && forall i :: 0 <= i < n ==> z[i] == 0
  {
    seq(n, _ => 0)
  }

  /** The bytes the reader gets: as many as the length field says, read from
      offset 2 as far as the region goes, zero beyond. */
  function FramePayload(region: seq<byte>): (p: seq<byte>)
    requires |region| == RegionSize
    ensures |p| == FrameLength(region)
  {
    var length := FrameLength(region);
    var available := if PayloadOffset + length <= RegionSize then length else RegionSize - PayloadOffset;
    region[PayloadOffset..PayloadOffset + available] + Zeros(length - available)
  }

  /** The arguments the running instance reads back. */
  function ReadFrame(region: seq<byte>): (args: seq<string>)
    requires |region| == RegionSize
    ensures |args| >= 1
  {
    Split(Decode(FramePayload(region)))
  }

  /** The second instance's side: encode the joined arguments, write the
      length field, then the payload, which fails when it does not fit. */
  method WriteArguments(region: array<byte>, args: seq<string>) returns (written: bool)
    requires region.Length == RegionSize
    modifies region
    ensures written == Fits(Encode(Join(args)))
    ensures region[..] == FrameAfterWrite(old(region[..]), Encode(Join(args)))
  {
    var data := Encode(Join(args));
    ghost var before, target := region[..], FrameAfterWrite(region[..], data);
    var length := LengthField(|data|);
    assert forall j :: 0 <= j < RegionSize ==>
      target[j] == if j == 0 then length % 0x100
                   else if j == 1 then length / 0x100
                   else if Fits(data) && j < PayloadOffset + |data| then data[j - PayloadOffset]
                   else before[j];
    region[0] := length % 0x100;
    region[1] := length / 0x100;
    if PayloadOffset + |data| > region.Length {
      assert forall j :: 0 <= j < RegionSize ==> region[..][j] == target[j];
      return false;
    }
    var i := 0;
    while i < |data|
      invariant 0 <= i <= |data|
      invariant forall j :: 0 <= j < PayloadOffset + i ==> region[j] == target[j]
      invariant forall j :: PayloadOffset + i <= j < RegionSize ==> region[j] == before[j]
    {
      region[PayloadOffset + i] := data[i];
      i := i + 1;
    }
    assert forall j :: 0 <= j < RegionSize ==> region[..][j] == target[j];
    return true;
  }

  /** The running instance's side: read the length field, fill a zeroed
      buffer of that length from offset 2 as far as the region goes, decode
      and split. */
  method ReadArguments(region: array<byte>) returns (args: seq<string>)
    requires region.Length == RegionSize
    ensures args == ReadFrame(region[..])
  {
    var length := region[0] as int + 0x100 * region[1] as int;
    var data := new byte[length](_ => 0);
    var available := if PayloadOffset + length <= region.Length then length else region.Length - PayloadOffset;
    var i := 0;
    while i < available
      invariant 0 <= i <= available
      invariant forall j :: 0 <= j < i ==> data[j] == region[PayloadOffset + j]
      invariant forall j :: i <= j < length ==> data[j] == 0
    {
      data[i] := region[PayloadOffset + i];
      i := i + 1;
    }
    assert data[..] == FramePayload(region[..]);
    args := Split(Decode(data[..]));
  }

  // ---------------------------------------------------------------------
  // Properties
  // ---------------------------------------------------------------------

  /** A payload that fits is read back byte for byte. */
  lemma PayloadReadBack(region: seq<byte>, payload: seq<byte>)
    requires |region| == RegionSize && Fits(payload)
    ensures FrameLength(FrameAfterWrite(region, payload)) == |payload|
    ensures FramePayload(FrameAfterWrite(region, payload)) == payload
  {
    var r := FrameAfterWrite(region, payload);
    assert FrameLength(r) == |payload|;
    assert FramePayload(r) == r[PayloadOffset..PayloadOffset + |payload|] + Zeros(0);
  }

  /** The arguments come back unchanged when there is at least one, none
      holds a newline and their encoding fits the region. */
  lemma FrameRoundTrip(region: seq<byte>, args: seq<string>)
    requires |region| == RegionSize
    requires |args| >= 1 && NewlinesIn(args) == 0
    requires Fits(Encode(Join(args)))
    ensures ReadFrame(FrameAfterWrite(region, Encode(Join(args)))) == args
  {
    PayloadReadBack(region, Encode(Join(args)));
    DecodeEncode(Join(args));
    SplitJoin(args);
  }

  /** No arguments are read back as one empty argument. */
  lemma EmptyArgumentsFrame(region: seq<byte>)
    requires |region| == RegionSize
    ensures ReadFrame(FrameAfterWrite(region, Encode(Join([])))) == [""]
  {
    PayloadReadBack(region, Encode(Join([])));
  }

  /** An argument holding a newline comes back as more arguments than were
      written, one more for each newline. */
  lemma NewlineSplitsArgument(region: seq<byte>, args: seq<string>)
    requires |region| == RegionSize && |args| >= 1
    requires Fits(Encode(Join(args)))
    ensures |ReadFrame(FrameAfterWrite(region, Encode(Join(args))))| == |args| + NewlinesIn(args)
  {
    PayloadReadBack(region, Encode(Join(args)));
    DecodeEncode(Join(args));
    SplitCount(Join(args));
    JoinCount(args);
  }

  /** A payload that does not fit leaves the old payload bytes in place
      under a new length field; from 65536 bytes on, the 16-bit length
      field no longer gives the payload's length. */
  lemma OversizedPayload(region: seq<byte>, payload: seq<byte>)
    requires |region| == RegionSize && !Fits(payload)
    ensures FrameAfterWrite(region, payload)[PayloadOffset..] == region[PayloadOffset..]
    ensures FrameLength(FrameAfterWrite(region, payload)) == |payload| % 0x1_0000
    ensures |payload| >= 0x1_0000 ==> FrameLength(FrameAfterWrite(region, payload)) != |payload|
  {
    var r := FrameAfterWrite(region, payload);
    assert FrameLength(r) == LengthField(|payload|);
  }
}
