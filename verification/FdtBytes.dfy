/** The words and tokens of a device tree as the bytes of sections 5.2 and 5.4.1
    of the Devicetree Specification. */
module FdtBytes {
  import opened Bytes
  import opened FdtBlob
  import opened FdtCheck
  import opened FdtLayout
  import opened FdtState
  import opened FdtFinish

  function WordValue(w: seq<Byte>): int
    requires |w| == 4
  {
    ((w[0] as int * 256 + w[1] as int) * 256 + w[2] as int) * 256 + w[3] as int
  }

  lemma {:induction false} FourFrom(w: seq<Byte>)
    requires |w| == 4
    ensures FromBytes(w) == WordValue(w)
  {
    var w3, w2, w1 := w[..3], w[..2], w[..1];
    assert w3[..2] == w2 && w2[..1] == w1 && w1[..0] == [];
    assert FromBytes(w1) == w[0];
    assert FromBytes(w2) == FromBytes(w1) * 256 + w[1];
    assert FromBytes(w3) == FromBytes(w2) * 256 + w[2];
  }

  /** A word has a value exactly when its four bytes are these. */
  lemma {:induction false} WordIs(b: seq<Byte>, at: nat, w: seq<Byte>)
    requires at + 4 <= |b| && |w| == 4
    ensures Get32(b, at) == WordValue(w) <==> b[at..at + 4] == w
  {
    var x := b[at..at + 4];
    DecodeValue(x, 4);
    FourFrom(x);
    if WordValue(x) == WordValue(w) {
      assert x[3] == w[3] && x[2] == w[2] && x[1] == w[1] && x[0] == w[0];
    }
  }

  function Token(c: Call): seq<Byte> {
    match c
    case BeginNode(_) => [0, 0, 0, 1]
    case EndNode => [0, 0, 0, 2]
    case Property(_, _) => [0, 0, 0, 3]
  }

  /** Every call starts with its token, and a property goes on with the length of
      its value and its name offset. */
  lemma {:induction false} TokenBytes(s: seq<Byte>, at: nat, c: Call, nameoff: int)
    requires Matches(s, at, c, nameoff)
    ensures s[at..at + 4] == Token(c)
    ensures c.Property? ==> WordValue(s[at + 4..at + 8]) == |c.value| && WordValue(s[at + 8..at + 12]) == nameoff
  {
    WordIs(s, at, Token(c));
    if c.Property? {
      WordIs(s, at + 4, s[at + 4..at + 8]);
      WordIs(s, at + 8, s[at + 8..at + 12]);
    }
  }

  /** The last token of a finished blob, and the fixed words of its header. */
  lemma {:induction false} FixedBytes(
    b: seq<Byte>, entries: seq<Reservation>, calls: seq<Call>, offs: seq<int>, t: seq<Byte>)
    requires Complete(b, entries, calls, offs, t)
    ensures b[0..4] == [0xD0, 0x0D, 0xFE, 0xED] && b[20..24] == [0, 0, 0, 17] && b[24..28] == [0, 0, 0, 16]
    ensures var end := OffStruct(b) + Pos(calls, |calls|); end + 4 <= |b| && b[end..end + 4] == [0, 0, 0, 9]
  {
    WordIs(b, 0, [0xD0, 0x0D, 0xFE, 0xED]);
    WordIs(b, 20, [0, 0, 0, 17]);
    WordIs(b, 24, [0, 0, 0, 16]);
    WordIs(b, OffStruct(b) + Pos(calls, |calls|), [0, 0, 0, 9]);
  }

  /** A node "a" with a property of five bytes, word by word. */
  predicate IsNode(s: seq<Byte>) {
    && |s| == 36
    && s[0..4] == [0, 0, 0, 1] && s[4..8] == [97, 0, 0, 0]
    && s[8..12] == [0, 0, 0, 3] && s[12..16] == [0, 0, 0, 5] && s[16..20] == [0, 0, 0, 2]
    && s[20..24] == [1, 2, 3, 4] && s[24..28] == [5, 0, 0, 0]
    && s[28..32] == [0, 0, 0, 2] && s[32..36] == [0, 0, 0, 9]
  }

  /** Its bytes are the calls that write it, and its tags are read one by one. */
  lemma {:induction false} NodeBytes(s: seq<Byte>, name: seq<Byte>)
    requires IsNode(s) && 0 !in name && |name| < INT_MAX
    ensures var calls := [Call.BeginNode([97]), Call.Property(name, [1, 2, 3, 4, 5]), Call.EndNode];
            && Layout(s, 0, calls, [0, 2, 0])
            && Stream(s, 0) == Some([Entry(1, 0, 8), Entry(3, 8, 28), Entry(2, 28, 32)])
  {
    var calls := [Call.BeginNode([97]), Call.Property(name, [1, 2, 3, 4, 5]), Call.EndNode];
    NodeOffsets(calls, name);
    NodeWords(s);
    NodeLayout(s, calls, name);
    StreamOfCalls(s, calls, [0, 2, 0], 0);
    NodeEntries(calls);
  }

  lemma {:induction false} NodeOffsets(calls: seq<Call>, name: seq<Byte>)
    requires calls == [Call.BeginNode([97]), Call.Property(name, [1, 2, 3, 4, 5]), Call.EndNode]
    ensures Pos(calls, 0) == 0 && Pos(calls, 1) == 8 && Pos(calls, 2) == 28 && Pos(calls, 3) == 32
  {
    assert Pos(calls, 1) == Pos(calls, 0) + SizeOf(calls[0]);
    assert Pos(calls, 2) == Pos(calls, 1) + SizeOf(calls[1]);
    assert Pos(calls, 3) == Pos(calls, 2) + SizeOf(calls[2]);
  }

  lemma {:induction false} NodeWords(s: seq<Byte>)
    requires IsNode(s)
    ensures Get32(s, 0) == 1 && Get32(s, 8) == 3 && Get32(s, 12) == 5 && Get32(s, 16) == 2
    ensures Get32(s, 28) == 2 && Get32(s, 32) == 9
  {
    WordIs(s, 0, [0, 0, 0, 1]);
    WordIs(s, 8, [0, 0, 0, 3]);
    WordIs(s, 12, [0, 0, 0, 5]);
    WordIs(s, 16, [0, 0, 0, 2]);
    WordIs(s, 28, [0, 0, 0, 2]);
    WordIs(s, 32, [0, 0, 0, 9]);
  }

  lemma {:induction false} NodeLayout(s: seq<Byte>, calls: seq<Call>, name: seq<Byte>)
    requires IsNode(s) && calls == [Call.BeginNode([97]), Call.Property(name, [1, 2, 3, 4, 5]), Call.EndNode]
    requires Pos(calls, 0) == 0 && Pos(calls, 1) == 8 && Pos(calls, 2) == 28
    requires Get32(s, 0) == 1 && Get32(s, 8) == 3 && Get32(s, 28) == 2 && Get32(s, 12) == 5 && Get32(s, 16) == 2
    ensures Layout(s, 0, calls, [0, 2, 0])
  {
    assert s[4..5] == [97] && s[5] == 0 by { assert s[4] == s[4..8][0] && s[5] == s[4..8][1]; }
    assert s[20..25] == s[20..24] + [s[24]] && s[24] == s[24..28][0];
    assert CallAt(s, 0, calls, [0, 2, 0], 0);
    assert CallAt(s, 0, calls, [0, 2, 0], 1);
    assert CallAt(s, 0, calls, [0, 2, 0], 2);
  }

  lemma {:induction false} NodeEntries(calls: seq<Call>)
    requires |calls| == 3 && TagOf(calls[0]) == 1 && TagOf(calls[1]) == 3 && TagOf(calls[2]) == 2
    requires Pos(calls, 0) == 0 && Pos(calls, 1) == 8 && Pos(calls, 2) == 28 && Pos(calls, 3) == 32
    ensures Entries(calls, 0) == [Entry(1, 0, 8), Entry(3, 8, 28), Entry(2, 28, 32)]
  {
    EntryAt(calls, 0, 0);
    EntryAt(calls, 0, 1);
    EntryAt(calls, 0, 2);
  }
}
