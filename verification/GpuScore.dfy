/** GPU selection: the additive score is a lexicographic order, and the loop returns its leftmost
    maximum. */
module GpuScore {
  const AMD := 0x1002
  const INTEL := 0x8086

  datatype Candidate = Candidate(vendorId: nat, hasConnectedOutput: bool, isEdp: bool)

  function Score(c: Candidate): (s: int)
    ensures s >= 1
  {
    (if c.isEdp then 1000 else if c.hasConnectedOutput then 500 else 0)
    + (if c.vendorId == AMD then 300 else if c.vendorId == INTEL then 100 else 1)
  }

  /** eDP before any connected output before none. */
  function OutputRank(c: Candidate): nat {
    if c.isEdp then 2 else if c.hasConnectedOutput then 1 else 0
  }

  /** AMD before Intel before every other vendor. */
  function VendorRank(c: Candidate): nat {
    if c.vendorId == AMD then 2 else if c.vendorId == INTEL then 1 else 0
  }

  /** The output decides, then the vendor. */
  predicate Worse(a: Candidate, b: Candidate) {
    OutputRank(a) < OutputRank(b) || (OutputRank(a) == OutputRank(b) && VendorRank(a) < VendorRank(b))
  }

  lemma ScoreIsLexicographic(a: Candidate, b: Candidate)
    ensures Score(a) < Score(b) <==> Worse(a, b)
    ensures Score(a) == Score(b) <==> OutputRank(a) == OutputRank(b) && VendorRank(a) == VendorRank(b)
  {
  }

  /** Any eDP panel beats any other output, any output beats none, and then AMD (0x1002) beats Intel
      (0x8086), which beats the rest. */
  lemma Preferences(a: Candidate, b: Candidate)
    ensures b.isEdp && !a.isEdp ==> Worse(a, b)
    ensures !a.isEdp && !b.isEdp && b.hasConnectedOutput && !a.hasConnectedOutput ==> Worse(a, b)
    ensures (a.isEdp && b.isEdp) || (!a.isEdp && !b.isEdp && a.hasConnectedOutput == b.hasConnectedOutput) ==>
              (Worse(a, b) <==> (b.vendorId == 0x1002 && a.vendorId != 0x1002)
                                || (b.vendorId == 0x8086 && a.vendorId !in {0x1002, 0x8086}))
  {
  }

  /** -1 for no candidates; otherwise the first of the candidates that no other beats. */
  method SelectIndex(cands: seq<Candidate>) returns (best: int)
    ensures best == -1 <==> cands == []
    ensures best != -1 ==>
              && 0 <= best < |cands|
              && (forall j | 0 <= j < |cands| :: !Worse(cands[best], cands[j]))
              && (forall j | 0 <= j < best :: Worse(cands[j], cands[best]))
  {
    best := -1;
    var bestScore: int := -1;
    for i := 0 to |cands|
      invariant best == -1 <==> i == 0
      invariant best == -1 ==> bestScore == -1
      invariant best != -1 ==> 0 <= best < i && bestScore == Score(cands[best])
      invariant best != -1 ==> forall j | 0 <= j < i :: !Worse(cands[best], cands[j])
      invariant best != -1 ==> forall j | 0 <= j < best :: Worse(cands[j], cands[best])
    {
      var s := Score(cands[i]);
      if s > bestScore {
        bestScore := s;
        best := i;
      }
    }
  }
}
