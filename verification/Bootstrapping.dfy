/**
 The liquidity bootstrapping offering: participants submit proofs of provided liquidity and
 claim newly minted tokens for them, once each, at a fixed integer rate.
 */
module Bootstrapping {
  import opened Prelude
  import opened MapSums
  import T = Token

  datatype Config = Config(
    startTime: nat, endTime: nat, minContribution: nat, maxContribution: nat,
    tokensPerSat: nat, totalAllocation: nat, maxSupply: nat)

  datatype Proof = Proof(contributor: Key, contractId: ContractId, amount: nat, timestamp: nat, claimed: bool)

  datatype Offering = Offering(contributions: map<Key, seq<Proof>>, raised: nat, distributed: nat)

  datatype System = System(ledger: T.Ledger, offering: Offering)

  const OPENING := System(T.EMPTY, Offering(map[], 0, 0))

  /** The last stands for anybody else who mints the same token. */
  datatype Op =
    | Submit(proof: Proof, now: nat)
    | Claim(who: Key)
    | MintElsewhere(to: Key, amount: nat)

  function Sats(proofs: seq<Proof>): nat {
    if proofs == [] then 0 else Sats(proofs[..|proofs| - 1]) + proofs[|proofs| - 1].amount
  }

  function ClaimedSats(proofs: seq<Proof>): nat {
    if proofs == [] then 0
    else
      var last := proofs[|proofs| - 1];
      ClaimedSats(proofs[..|proofs| - 1]) + if last.claimed then last.amount else 0
  }

  function UnclaimedSats(proofs: seq<Proof>): nat {
    if proofs == [] then 0
    else
      var last := proofs[|proofs| - 1];
      UnclaimedSats(proofs[..|proofs| - 1]) + if last.claimed then 0 else last.amount
  }

  /** The positions of the proofs not yet claimed, in order. */
  function Unclaimed(proofs: seq<Proof>): seq<nat> {
    if proofs == [] then []
    else
      var n := |proofs| - 1;
      Unclaimed(proofs[..n]) + if proofs[n].claimed then [] else [n]
  }

  function AllClaimed(proofs: seq<Proof>): seq<Proof> {
    seq(|proofs|, i requires 0 <= i < |proofs| => proofs[i].(claimed := true))
  }

  function ProofsOf(o: Offering, k: Key): seq<Proof> {
    if k in o.contributions then o.contributions[k] else []
  }

  function DoSubmit(c: Config, o: Offering, proof: Proof, now: nat): (Offering, Result<nat>) {
    var k := proof.contributor;
    var total := Sats(ProofsOf(o, k)) + proof.amount;
    if now < c.startTime || c.endTime < now then
      (o, Err(InvalidContract("LBO is not active")))
    else if total < c.minContribution then
      (o, Err(DepositTooSmall(c.minContribution, total)))
    else if total > c.maxContribution then
      (o, Err(InvalidAmount("Exceeds max contribution")))
    else
      (o.(contributions := o.contributions[k := ProofsOf(o, k) + [proof]], raised := o.raised + proof.amount),
       Ok(proof.amount))
  }

  function DoClaim(c: Config, s: System, k: Key): (System, Result<nat>) {
    var proofs := ProofsOf(s.offering, k);
    var tokens := UnclaimedSats(proofs) * c.tokensPerSat;
    if k !in s.offering.contributions then
      (s, Err(InvalidAmount("No contributions found")))
    else if Unclaimed(proofs) == [] then
      (s, Err(InvalidAmount("No unclaimed contributions")))
    else if s.offering.distributed + tokens > c.totalAllocation then
      (s, Err(InvalidAmount("LBO allocation exhausted")))
    else
      var (ledger, r) := T.Minted(s.ledger, c.maxSupply, k, tokens);
      if r.Err? then (s, r)
      else
        var o := s.offering;
        (System(ledger, o.(contributions := o.contributions[k := AllClaimed(proofs)],
                           distributed := o.distributed + tokens)),
         Ok(tokens))
  }

  function Do(c: Config, s: System, op: Op): (System, Result<nat>) {
    match op
    case Submit(proof, now) =>
      var (o, r) := DoSubmit(c, s.offering, proof, now);
      (s.(offering := o), r)
    case Claim(k) => DoClaim(c, s, k)
    case MintElsewhere(to, amount) =>
      var (ledger, r) := T.Minted(s.ledger, c.maxSupply, to, amount);
      (s.(ledger := ledger), r)
  }

  function Run(c: Config, s: System, ops: seq<Op>): System
    decreases |ops|
  {
    if ops == [] then s else Run(c, Do(c, s, ops[0]).0, ops[1..])
  }

  /** The amounts of the proofs a run accepted, read off its calls and answers. */
  function Accepted(c: Config, s: System, ops: seq<Op>): nat
    decreases |ops|
  {
    if ops == [] then 0
    else
      (if ops[0].Submit? && Do(c, s, ops[0]).1.Ok? then ops[0].proof.amount else 0)
      + Accepted(c, Do(c, s, ops[0]).0, ops[1..])
  }

  /** What others minted during a run. */
  function MintedByOthers(c: Config, s: System, ops: seq<Op>): nat
    decreases |ops|
  {
    if ops == [] then 0
    else
      (if ops[0].MintElsewhere? && Do(c, s, ops[0]).1.Ok? then ops[0].amount else 0)
      + MintedByOthers(c, Do(c, s, ops[0]).0, ops[1..])
  }

  /** Sats of a proof accepted although it was marked claimed when it was submitted. */
  function PreclaimedBy(c: Config, s: System, op: Op): nat {
    if op.Submit? && op.proof.claimed && Do(c, s, op).1.Ok? then op.proof.amount else 0
  }

  /** Sats of the proofs a run accepted that were marked claimed when they were submitted. */
  function Preclaimed(c: Config, s: System, ops: seq<Op>): nat
    decreases |ops|
  {
    if ops == [] then 0
    else PreclaimedBy(c, s, ops[0]) + Preclaimed(c, Do(c, s, ops[0]).0, ops[1..])
  }

  // ---------- the books ----------

  ghost function Raised(o: Offering): map<Key, int> {
    map k | k in o.contributions :: Sats(o.contributions[k])
  }

  ghost function Claimed(o: Offering): map<Key, int> {
    map k | k in o.contributions :: ClaimedSats(o.contributions[k])
  }

  /** The amount raised adds up, and every participant is within bounds. */
  ghost predicate Raises(c: Config, o: Offering) {
    && Sum(Raised(o)) == o.raised
    && (forall k :: k in o.contributions ==> c.minContribution <= Sats(o.contributions[k]) <= c.maxContribution)
  }

  /** Sats claimed since they were submitted, given those submitted as already claimed. */
  ghost function Redeemed(o: Offering, preclaimed: nat): int { Sum(Claimed(o)) - preclaimed }

  /** What every reachable offering satisfies. */
  ghost predicate Inv(c: Config, o: Offering, preclaimed: nat) {
    && Raises(c, o)
    && o.distributed == c.tokensPerSat * Redeemed(o, preclaimed)
    && o.distributed <= c.totalAllocation
  }

  lemma AppendProof(proofs: seq<Proof>, p: Proof)
    ensures Sats(proofs + [p]) == Sats(proofs) + p.amount
    ensures ClaimedSats(proofs + [p]) == ClaimedSats(proofs) + if p.claimed then p.amount else 0
  {
    assert (proofs + [p])[..|proofs|] == proofs;
  }

  lemma {:induction false} ClaimingMovesSats(proofs: seq<Proof>)
    ensures Sats(AllClaimed(proofs)) == Sats(proofs)
    ensures ClaimedSats(AllClaimed(proofs)) == ClaimedSats(proofs) + UnclaimedSats(proofs)
    ensures UnclaimedSats(AllClaimed(proofs)) == 0 && Unclaimed(AllClaimed(proofs)) == []
  {
    if proofs != [] {
      var n := |proofs| - 1;
      ClaimingMovesSats(proofs[..n]);
      assert AllClaimed(proofs)[..n] == AllClaimed(proofs[..n]);
    }
  }

  lemma RaisedAt(o: Offering, o': Offering, k: Key, proofs: seq<Proof>)
    requires o'.contributions == o.contributions[k := proofs]
    ensures Sum(Raised(o')) == Sum(Raised(o)) - Sats(ProofsOf(o, k)) + Sats(proofs)
  {
    assert Raised(o') == Raised(o)[k := Sats(proofs)];
    SumUpdate(Raised(o), k, Sats(proofs));
  }

  lemma ClaimedAt(o: Offering, o': Offering, k: Key, proofs: seq<Proof>)
    requires o'.contributions == o.contributions[k := proofs]
    ensures Sum(Claimed(o')) == Sum(Claimed(o)) - ClaimedSats(ProofsOf(o, k)) + ClaimedSats(proofs)
  {
    assert Claimed(o') == Claimed(o)[k := ClaimedSats(proofs)];
    SumUpdate(Claimed(o), k, ClaimedSats(proofs));
  }

  lemma SubmitAdds(c: Config, o: Offering, proof: Proof, now: nat, preclaimed: nat)
    requires Raises(c, o) && DoSubmit(c, o, proof, now).1.Ok?
    ensures var o' := DoSubmit(c, o, proof, now).0;
      && Raises(c, o') && o'.distributed == o.distributed
      && Redeemed(o', preclaimed + if proof.claimed then proof.amount else 0) == Redeemed(o, preclaimed)
  {
    var k := proof.contributor;
    AppendProof(ProofsOf(o, k), proof);
    RaisedAt(o, DoSubmit(c, o, proof, now).0, k, ProofsOf(o, k) + [proof]);
    ClaimedAt(o, DoSubmit(c, o, proof, now).0, k, ProofsOf(o, k) + [proof]);
  }

  /** An accepted proof is stored last among its contributor's, counted once, and nothing else moves. */
  lemma SubmitStores(c: Config, o: Offering, proof: Proof, now: nat, other: Key)
    requires DoSubmit(c, o, proof, now).1.Ok?
    ensures var (o', r) := DoSubmit(c, o, proof, now);
      && proof.contributor in o'.contributions
      && ProofsOf(o', proof.contributor) == ProofsOf(o, proof.contributor) + [proof]
      && o'.raised == o.raised + proof.amount && o'.distributed == o.distributed
      && r.value == proof.amount
      && (other != proof.contributor ==>
            && (other in o'.contributions <==> other in o.contributions)
            && ProofsOf(o', other) == ProofsOf(o, other))
  {}

  /** Which refusal a submission meets: closed, too small, or too large. */
  lemma SubmitRefusesWith(c: Config, o: Offering, proof: Proof, now: nat)
    requires DoSubmit(c, o, proof, now).1.Err?
    ensures var (e, total) := (DoSubmit(c, o, proof, now).1.error, Sats(ProofsOf(o, proof.contributor)) + proof.amount);
      if !(c.startTime <= now <= c.endTime) then e.InvalidContract?
      else if total < c.minContribution then e == DepositTooSmall(c.minContribution, total)
      else e.InvalidAmount? && c.maxContribution < total
  {}

  lemma SameBooks(c: Config, o: Offering, o': Offering, preclaimed: nat, preclaimed': nat)
    requires Inv(c, o, preclaimed) && Raises(c, o')
    requires o'.distributed == o.distributed && Redeemed(o', preclaimed') == Redeemed(o, preclaimed)
    ensures Inv(c, o', preclaimed')
  {
    Times(c.tokensPerSat, Redeemed(o, preclaimed), Redeemed(o', preclaimed'), 0);
  }

  lemma SubmitKeepsInv(c: Config, o: Offering, proof: Proof, now: nat, preclaimed: nat, preclaimed': nat)
    requires Inv(c, o, preclaimed)
    requires var r := DoSubmit(c, o, proof, now).1;
      preclaimed' == preclaimed + if proof.claimed && r.Ok? then proof.amount else 0
    ensures Inv(c, DoSubmit(c, o, proof, now).0, preclaimed')
    ensures DoSubmit(c, o, proof, now).1.Err? ==> DoSubmit(c, o, proof, now).0 == o
    ensures DoSubmit(c, o, proof, now).1.Ok? <==>
      && c.startTime <= now <= c.endTime
      && c.minContribution <= Sats(ProofsOf(o, proof.contributor)) + proof.amount <= c.maxContribution
  {
    if DoSubmit(c, o, proof, now).1.Ok? {
      SubmitAdds(c, o, proof, now, preclaimed);
      SameBooks(c, o, DoSubmit(c, o, proof, now).0, preclaimed, preclaimed');
    }
  }

  lemma ClaimAdds(c: Config, s: System, k: Key, preclaimed: nat)
    requires Raises(c, s.offering) && DoClaim(c, s, k).1.Ok?
    ensures var o' := DoClaim(c, s, k).0.offering;
      && Raises(c, o')
      && Redeemed(o', preclaimed) == Redeemed(s.offering, preclaimed) + UnclaimedSats(ProofsOf(s.offering, k))
  {
    var proofs := ProofsOf(s.offering, k);
    ClaimingMovesSats(proofs);
    RaisedAt(s.offering, DoClaim(c, s, k).0.offering, k, AllClaimed(proofs));
    ClaimedAt(s.offering, DoClaim(c, s, k).0.offering, k, AllClaimed(proofs));
  }

  lemma ClaimKeepsInv(c: Config, s: System, k: Key, preclaimed: nat)
    requires Inv(c, s.offering, preclaimed)
    ensures var (s', r) := DoClaim(c, s, k);
      && Inv(c, s'.offering, preclaimed)
      && (r.Err? ==> s' == s)
  {
    var (s', r) := DoClaim(c, s, k);
    if r.Ok? {
      ClaimAdds(c, s, k, preclaimed);
      Times(c.tokensPerSat, Redeemed(s.offering, preclaimed), Redeemed(s'.offering, preclaimed),
            UnclaimedSats(ProofsOf(s.offering, k)));
    }
  }

  lemma Times(rate: int, a: int, b: int, d: int)
    ensures b == a + d ==> rate * b == rate * a + d * rate
  {}

  /** The same proofs, all of them claimed now. */
  predicate OnlyClaimedDiffers(before: seq<Proof>, after: seq<Proof>) {
    && |after| == |before|
    && forall i :: 0 <= i < |before| ==>
      && after[i].claimed
      && after[i].contributor == before[i].contributor && after[i].contractId == before[i].contractId
      && after[i].amount == before[i].amount && after[i].timestamp == before[i].timestamp
  }

  /** A claim mints the rate times the unclaimed sats to the claimant, and leaves nothing to claim again. */
  lemma ClaimPaysOnce(c: Config, s: System, k: Key)
    ensures var (s', r) := DoClaim(c, s, k);
      r.Ok? <==>
        && k in s.offering.contributions && Unclaimed(ProofsOf(s.offering, k)) != []
        && s.offering.distributed + UnclaimedSats(ProofsOf(s.offering, k)) * c.tokensPerSat <= c.totalAllocation
        && s.ledger.supply + UnclaimedSats(ProofsOf(s.offering, k)) * c.tokensPerSat <= c.maxSupply
    ensures var (s', r) := DoClaim(c, s, k);
      r.Ok? ==>
        && r.value == UnclaimedSats(ProofsOf(s.offering, k)) * c.tokensPerSat
        && T.BalanceOf(s'.ledger, k).available == T.BalanceOf(s.ledger, k).available + r.value
        && s'.ledger.supply == s.ledger.supply + r.value
        && OnlyClaimedDiffers(ProofsOf(s.offering, k), ProofsOf(s'.offering, k))
        && s'.offering.raised == s.offering.raised
        && s'.offering.distributed == s.offering.distributed + r.value
        && s'.offering.contributions - {k} == s.offering.contributions - {k}
        && DoClaim(c, s', k) == (s', Err(InvalidAmount("No unclaimed contributions")))
  {
    ClaimingMovesSats(ProofsOf(s.offering, k));
  }

  lemma StepKeepsInv(c: Config, s: System, op: Op, preclaimed: nat, preclaimed': nat)
    requires Inv(c, s.offering, preclaimed)
    requires preclaimed' == preclaimed + PreclaimedBy(c, s, op)
    ensures Inv(c, Do(c, s, op).0.offering, preclaimed')
  {
    match op
    case Submit(proof, now) => SubmitKeepsInv(c, s.offering, proof, now, preclaimed, preclaimed');
    case Claim(k) => ClaimKeepsInv(c, s, k, preclaimed);
    case MintElsewhere(_, _) =>
  }

  lemma {:induction false} RunKeepsInv(c: Config, s: System, ops: seq<Op>, preclaimed: nat, total: nat)
    requires Inv(c, s.offering, preclaimed)
    requires total == preclaimed + Preclaimed(c, s, ops)
    ensures Inv(c, Run(c, s, ops).offering, total)
    decreases |ops|
  {
    if ops != [] {
      var preclaimed' := preclaimed + PreclaimedBy(c, s, ops[0]);
      StepKeepsInv(c, s, ops[0], preclaimed, preclaimed');
      RunKeepsInv(c, Do(c, s, ops[0]).0, ops[1..], preclaimed', total);
    }
  }

  /** What a run raises is what it accepted. */
  lemma {:induction false} RaisedIsAccepted(c: Config, s: System, ops: seq<Op>)
    ensures Run(c, s, ops).offering.raised == s.offering.raised + Accepted(c, s, ops)
    decreases |ops|
  {
    if ops != [] {
      RaisedIsAccepted(c, Do(c, s, ops[0]).0, ops[1..]);
    }
  }

  /** The token supply grows by what the offering distributes and what others mint. */
  lemma {:induction false} SupplyIsAccountedFor(c: Config, s: System, ops: seq<Op>)
    ensures var s' := Run(c, s, ops);
      s'.ledger.supply - s.ledger.supply
      == s'.offering.distributed - s.offering.distributed + MintedByOthers(c, s, ops)
    decreases |ops|
  {
    if ops != [] {
      SupplyIsAccountedFor(c, Do(c, s, ops[0]).0, ops[1..]);
    }
  }

  /**
   The offering's books over every run: the amount raised is the sum of all proofs,
   stored and accepted alike, each
   participant is within bounds, the allocation is never exceeded, and the tokens
   distributed are the rate times the claimed sats exactly when nothing that counts was
   submitted as already claimed.
   */
  lemma OfferingBalances(c: Config, ops: seq<Op>)
    ensures var o := Run(c, OPENING, ops).offering;
      && o.raised == Sum(Raised(o)) == Accepted(c, OPENING, ops)
      && (forall k :: k in o.contributions ==> c.minContribution <= Sats(o.contributions[k]) <= c.maxContribution)
      && o.distributed <= c.totalAllocation
      && (o.distributed == c.tokensPerSat * Sum(Claimed(o))
          <==> c.tokensPerSat == 0 || Preclaimed(c, OPENING, ops) == 0)
  {
    ReachableInv(c, ops);
    RaisedIsAccepted(c, OPENING, ops);
    var o, pre := Run(c, OPENING, ops).offering, Preclaimed(c, OPENING, ops);
    Difference(c.tokensPerSat, Sum(Claimed(o)), pre, o.distributed);
  }

  lemma ReachableInv(c: Config, ops: seq<Op>)
    ensures Inv(c, Run(c, OPENING, ops).offering, Preclaimed(c, OPENING, ops))
  {
    assert Raised(OPENING.offering) == map[] && Claimed(OPENING.offering) == map[];
    RunKeepsInv(c, OPENING, ops, 0, Preclaimed(c, OPENING, ops));
  }

  lemma Difference(rate: nat, sum: int, pre: nat, paid: int)
    requires paid == rate * (sum - pre)
    ensures paid == rate * sum <==> rate == 0 || pre == 0
  {
    assert rate * (sum - pre) == rate * sum - rate * pre;
  }

  // ---------- the offering object ----------

  lemma {:induction false} UnclaimedAre(proofs: seq<Proof>, i: nat)
    ensures i in Unclaimed(proofs) <==> i < |proofs| && !proofs[i].claimed
  {
    if proofs != [] {
      var n := |proofs| - 1;
      UnclaimedAre(proofs[..n], i);
      assert i in Unclaimed(proofs) <==> i in Unclaimed(proofs[..n]) || (i == n && !proofs[n].claimed);
    }
  }

  class LiquidityBootstrapping {
    const config: Config
    const token: T.CtdlToken
    var contributions: map<Key, seq<Proof>>
    var totalRaised: nat
    var tokensDistributed: nat

    constructor (config: Config, token: T.CtdlToken)
      ensures this.config == config && this.token == token
      ensures View() == System(token.View(), OPENING.offering)
    {
      this.config, this.token := config, token;
      contributions, totalRaised, tokensDistributed := map[], 0, 0;
    }

    /** The offering's terms under the cap of its own token. */
    function Terms(): Config { config.(maxSupply := token.maxSupply) }

    function Books(): Offering
      reads this
    {
      Offering(contributions, totalRaised, tokensDistributed)
    }

    function View(): System
      reads this, token
    {
      System(token.View(), Books())
    }

    method SubmitProof(proof: Proof, now: nat) returns (r: Result<nat>)
      modifies this
      ensures (Books(), r) == DoSubmit(config, old(Books()), proof, now)
    {
      if now < config.startTime || now > config.endTime {
        return Err(InvalidContract("LBO is not active"));
      }
      var key := proof.contributor;
      var newTotal := Sats(ProofsOf(Books(), key)) + proof.amount;
      if newTotal < config.minContribution {
        return Err(DepositTooSmall(config.minContribution, newTotal));
      }
      if newTotal > config.maxContribution {
        return Err(InvalidAmount("Exceeds max contribution"));
      }
      if key !in contributions {
        contributions := contributions[key := []];
      }
      contributions := contributions[key := contributions[key] + [proof]];
      assert contributions == old(contributions)[key := ProofsOf(old(Books()), key) + [proof]];
      totalRaised := totalRaised + proof.amount;
      r := Ok(proof.amount);
    }

    /** Marks the proofs at the given positions as claimed, one by one. */
    method MarkClaimed(key: Key, marks: seq<nat>)
      requires key in contributions
      requires marks == Unclaimed(contributions[key])
      modifies this`contributions
      ensures contributions == old(contributions)[key := AllClaimed(old(contributions[key]))]
    {
      ghost var before := contributions[key];
      for j := 0 to |marks|
        invariant key in contributions && |contributions[key]| == |before|
        invariant contributions == old(contributions)[key := contributions[key]]
        invariant forall i :: 0 <= i < |before| ==>
          contributions[key][i] == if i in marks[..j] then before[i].(claimed := true) else before[i]
      {
        var i, proofs := marks[j], contributions[key];
        assert marks[..j + 1] == marks[..j] + [i];
        if i < |proofs| {
          contributions := contributions[key := proofs[i := proofs[i].(claimed := true)]];
        }
      }
      assert marks[..|marks|] == marks;
      forall i | 0 <= i < |before| ensures contributions[key][i] == AllClaimed(before)[i] {
        UnclaimedAre(before, i);
      }
      assert contributions[key] == AllClaimed(before);
    }

    method Claim(contributor: Key) returns (r: Result<nat>)
      modifies this, token
      ensures (View(), r) == Do(Terms(), old(View()), Op.Claim(contributor))
    {
      if contributor !in contributions {
        return Err(InvalidAmount("No contributions found"));
      }
      var proofs := contributions[contributor];
      var marks := Unclaimed(proofs);
      if marks == [] {
        return Err(InvalidAmount("No unclaimed contributions"));
      }
      var tokens := UnclaimedSats(proofs) * config.tokensPerSat;
      if tokensDistributed + tokens > config.totalAllocation {
        return Err(InvalidAmount("LBO allocation exhausted"));
      }
      var minted := token.Mint(contributor, tokens);
      if minted.Err? {
        return minted;
      }
      MarkClaimed(contributor, marks);
      tokensDistributed := tokensDistributed + tokens;
      r := Ok(tokens);
    }

    function ParticipantTotal(contributor: Key): nat
      reads this
    {
      Sats(ProofsOf(Books(), contributor))
    }
  }
}
