/** Ordering stream identifiers (`compareStreamIDs`): numerically by millisecond, then by sequence number. */
module StreamIDs {
  import opened SeatKeys

  datatype StreamID = StreamID(ms: nat, seqNo: nat)
  {
    function Show(): string {
      Digits(ms) + "-" + Digits(seqNo)
    }

    predicate Less(other: StreamID) {
      ms < other.ms || (ms == other.ms && seqNo < other.seqNo)
    }
  }

  /** Position of the first dash, or the length of the text. */
  function FirstDash(s: string): (i: nat)
    ensures i <= |s|
  {
    if s == [] || s[0] == '-' then 0 else 1 + FirstDash(s[1..])
  }

  predicate IsNumber(s: string) {
    s != [] && forall i :: 0 <= i < |s| ==> '0' <= s[i] <= '9'
  }

  /** A part that is not a number counts as zero. */
  function ParseNat(s: string): int {
    if IsNumber(s) then Value(s) else 0
  }

  function SplitStreamID(id: string): (int, int) {
    var i := FirstDash(id);
    (ParseNat(id[..i]), if i < |id| then ParseNat(id[i + 1..]) else 0)
  }

  /** -1, 0 or 1. */
  function CompareStreamIDs(a: string, b: string): int {
    var (aMs, aSeq), (bMs, bSeq) := SplitStreamID(a), SplitStreamID(b);
    if aMs < bMs then -1 else if aMs > bMs then 1
    else if aSeq < bSeq then -1 else if aSeq > bSeq then 1
    else 0
  }

  lemma {:induction false} DashAfter(a: string, rest: string)
    requires '-' !in a
    ensures FirstDash(a + "-" + rest) == |a|
  {
    if a != [] {
      assert (a + "-" + rest)[1..] == a[1..] + "-" + rest;
      DashAfter(a[1..], rest);
    }
  }

  /** An identifier the server printed reads back as its two numbers. */
  lemma ShownReadsBack(id: StreamID)
    ensures SplitStreamID(id.Show()) == (id.ms, id.seqNo)
  {
    DashAfter(Digits(id.ms), Digits(id.seqNo));
    var s := id.Show();
    assert s[..|Digits(id.ms)|] == Digits(id.ms) && s[|Digits(id.ms)| + 1..] == Digits(id.seqNo);
    DigitsValue(id.ms);
    DigitsValue(id.seqNo);
  }

  /** Comparing texts compares the identifiers, whatever their lengths; the start position "0" comes before all. */
  lemma ComparesIdentifiers(a: StreamID, b: StreamID)
    ensures CompareStreamIDs(a.Show(), b.Show()) < 0 <==> a.Less(b)
    ensures CompareStreamIDs(a.Show(), b.Show()) == 0 <==> a == b
    ensures CompareStreamIDs("0", a.Show()) <= 0
  {
    ShownReadsBack(a);
    ShownReadsBack(b);
    hide Digits, Value;
    assert FirstDash("0") == 1 by {
      assert "0"[1..] == "";
    }
    assert SplitStreamID("0") == (ParseNat("0"), 0) && ParseNat("0") == 0 by {
      ZeroIsZero();
      assert "0"[..1] == "0";
    }
  }

  lemma ZeroIsZero()
    ensures ParseNat("0") == 0
  {
    assert "0"[..0] == "";
    assert Value("") == 0;
  }

  ghost predicate Increasing(ids: seq<StreamID>) {
    forall i, j :: 0 <= i < j < |ids| ==> ids[i].Less(ids[j])
  }

  /** On a stream, whose identifiers increase, comparing identifiers is comparing positions: a cursor lags behind
      the oldest surviving entry exactly when it stands before it. */
  lemma PositionsStandForIdentifiers(ids: seq<StreamID>, i: nat, j: nat)
    requires Increasing(ids) && i < |ids| && j < |ids|
    ensures CompareStreamIDs(ids[i].Show(), ids[j].Show()) < 0 <==> i < j
  {
    ComparesIdentifiers(ids[i], ids[j]);
  }
}
