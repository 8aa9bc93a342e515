/**
  The path-length check over a presented chain, leaf first, against the
  running counter of RFC 5280, sections 6.1.2(k) and 6.1.4(l)-(m), which goes
  from the top of the chain down.
 */
module ChainPaths {

  /** What the check reads of a certificate; a negative `maxPathLen` is no limit. */
  datatype Cert = Cert(subject: string, issuer: string, maxPathLen: int)

  datatype Verdict = Accepted | IssuerMismatch(at: nat) | BadSignature(at: nat) | PathTooLong(at: nat)

  predicate SelfIssued(c: Cert) {
    c.subject == c.issuer
  }

  /** The certificates at positions 1 to `i` that are not self-issued: the CAs below position `i + 1`. */
  function CAsUpTo(chain: seq<Cert>, i: nat): (n: nat)
    requires i < |chain|
    ensures n <= i
  {
    if i == 0 then 0 else CAsUpTo(chain, i - 1) + if SelfIssued(chain[i]) then 0 else 1
  }

  /** The constraint of the certificate at position `k` on the CAs below it. */
  predicate WithinPathLen(chain: seq<Cert>, k: nat)
    requires 0 < k < |chain|
  {
    chain[k].maxPathLen >= 0 ==> CAsUpTo(chain, k - 1) <= chain[k].maxPathLen
  }

  predicate Linked(chain: seq<Cert>, signed: (Cert, Cert) -> bool, i: nat)
    requires i + 1 < |chain|
  {
    chain[i].issuer == chain[i + 1].subject && signed(chain[i], chain[i + 1])
  }

  ghost predicate FineBelow(chain: seq<Cert>, signed: (Cert, Cert) -> bool, n: nat)
    requires n < |chain| || n == 0
  {
    forall i | 0 <= i < n :: Linked(chain, signed, i) && WithinPathLen(chain, i + 1)
  }

  lemma FineOneMore(chain: seq<Cert>, signed: (Cert, Cert) -> bool, n: nat)
    requires n + 1 < |chain| && FineBelow(chain, signed, n)
    ensures FineBelow(chain, signed, n + 1) <==> Linked(chain, signed, n) && WithinPathLen(chain, n + 1)
  {
    assert FineBelow(chain, signed, n + 1) ==> Linked(chain, signed, n) && WithinPathLen(chain, n + 1);
    hide Linked;
    hide WithinPathLen;
  }

  lemma FineFurtherDown(chain: seq<Cert>, signed: (Cert, Cert) -> bool, n: nat, m: nat)
    requires n <= m < |chain| && FineBelow(chain, signed, m)
    ensures FineBelow(chain, signed, n)
  {
    hide Linked;
    hide WithinPathLen;
  }

  /** The pairwise check; a refusal names the first pair that fails, and why. */
  method ValidatePresentedChain(chain: seq<Cert>, signed: (Cert, Cert) -> bool) returns (v: Verdict)
    ensures v == Accepted <==> chain == [] || FineBelow(chain, signed, |chain| - 1)
    ensures v.IssuerMismatch? ==>
              v.at + 1 < |chain| && FineBelow(chain, signed, v.at) && chain[v.at].issuer != chain[v.at + 1].subject
    ensures v.BadSignature? ==>
              v.at + 1 < |chain| && FineBelow(chain, signed, v.at) && !signed(chain[v.at], chain[v.at + 1])
    ensures v.PathTooLong? ==> 0 < v.at < |chain| && FineBelow(chain, signed, v.at - 1)
                               && Linked(chain, signed, v.at - 1) && !WithinPathLen(chain, v.at)
  {
    var i := 0;
    while i + 1 < |chain|
      invariant 0 <= i && (i < |chain| || i == 0)
      invariant FineBelow(chain, signed, i)
    {
      var child, issuer := chain[i], chain[i + 1];
      FineOneMore(chain, signed, i);
      if FineBelow(chain, signed, |chain| - 1) {
        FineFurtherDown(chain, signed, i + 1, |chain| - 1);
      }
      hide FineBelow;
      if child.issuer != issuer.subject {
        assert !Linked(chain, signed, i);
        return IssuerMismatch(i);
      }
      if !signed(child, issuer) {
        assert !Linked(chain, signed, i);
        return BadSignature(i);
      }
      var below := 0;
      var j := 1;
      while j <= i
        invariant 1 <= j <= i + 1 && below == CAsUpTo(chain, j - 1)
      {
        if chain[j].subject != chain[j].issuer {
          below := below + 1;
        }
        j := j + 1;
      }
      if issuer.maxPathLen >= 0 && below > issuer.maxPathLen {
        assert !WithinPathLen(chain, i + 1);
        return PathTooLong(i + 1);
      }
      assert Linked(chain, signed, i) && WithinPathLen(chain, i + 1);
      i := i + 1;
    }
    v := Accepted;
  }

  // ---------------------------------------------------------------- RFC 5280

  /**
    Sections 6.1.4(l) and (m) for the certificates from position `k` down to
    position 1, starting with the given max_path_length. The leaf is the final
    certificate and is not prepared for a next one.
   */
  predicate CounterAccepts(chain: seq<Cert>, k: nat, maxPathLength: nat)
    requires k < |chain|
  {
    if k == 0 then true
    else if !SelfIssued(chain[k]) && maxPathLength == 0 then false
    else
      var left := if SelfIssued(chain[k]) then maxPathLength else maxPathLength - 1;
      CounterAccepts(chain, k - 1, if 0 <= chain[k].maxPathLen < left then chain[k].maxPathLen else left)
  }

  lemma {:induction false} CounterExactly(chain: seq<Cert>, k: nat, maxPathLength: nat)
    requires k < |chain|
    ensures CounterAccepts(chain, k, maxPathLength)
       <==> CAsUpTo(chain, k) <= maxPathLength && forall m | 0 < m <= k :: WithinPathLen(chain, m)
  {
    if k > 0 && (SelfIssued(chain[k]) || maxPathLength > 0) {
      var left := if SelfIssued(chain[k]) then maxPathLength else maxPathLength - 1;
      CounterExactly(chain, k - 1, if 0 <= chain[k].maxPathLen < left then chain[k].maxPathLen else left);
      assert (forall m | 0 < m <= k :: WithinPathLen(chain, m))
        <==> (forall m | 0 < m <= k - 1 :: WithinPathLen(chain, m)) && WithinPathLen(chain, k);
    }
  }

  /**
    Counting the CAs below each issuer pair by pair accepts exactly the chains
    that the running counter accepts when it starts, as section 6.1.2(k) says,
    at the length of the path.
   */
  lemma PairwiseIsTheCounter(chain: seq<Cert>)
    requires chain != []
    ensures (forall k | 0 < k < |chain| :: WithinPathLen(chain, k)) <==> CounterAccepts(chain, |chain| - 1, |chain|)
  {
    CounterExactly(chain, |chain| - 1, |chain|);
  }

  /** So a chain whose links hold is accepted exactly when RFC 5280 accepts its path lengths. */
  lemma AcceptedExactly(chain: seq<Cert>, signed: (Cert, Cert) -> bool)
    requires chain != []
    ensures FineBelow(chain, signed, |chain| - 1)
       <==> (forall i | 0 <= i < |chain| - 1 :: Linked(chain, signed, i)) && CounterAccepts(chain, |chain| - 1, |chain|)
  {
    PairwiseIsTheCounter(chain);
    if FineBelow(chain, signed, |chain| - 1) {
      forall k | 0 < k < |chain|
        ensures WithinPathLen(chain, k)
      {
        assert Linked(chain, signed, k - 1) && WithinPathLen(chain, k - 1 + 1);
      }
    }
  }
}
