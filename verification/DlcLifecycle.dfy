/**
 The contract state machine. Each operation reads the stored state, decides by a match
 whether it may move on, and overwrites the store. What is stored certifies how it came
 about: the successful operations on a contract can be read off its state.
 */
module DlcLifecycle {
  import opened Prelude
  import opened DlcStates
  import D = DlcStorage

  /** Whether both signatures verify, under the two parties' keys, over a message. */
  type Verifier = (Sign, Key, Key, seq<byte>) -> bool

  datatype Op =
    | CreateOffer(offer: Offer, now: nat)
    | AcceptOffer(id: ContractId, accept: Accept, now: nat)
    | SignContract(id: ContractId, sign: Sign, now: nat)
    | ConfirmFunding(id: ContractId, blockHeight: nat, txid: seq<byte>, now: nat)
    | Settle(id: ContractId, attestation: Attestation, ourPayout: nat, now: nat)
    | Refund(id: ContractId, reason: RefundReason, now: nat)
    | Fail(id: ContractId, why: string, now: nat)
  {
    function Target(): ContractId { if CreateOffer? then offer.contractId else this.id }

    function Goal(): string {
      match this
      case CreateOffer(_, _) => "Offered"
      case AcceptOffer(_, _, _) => "Accepted"
      case SignContract(_, _, _) => "Signed"
      case ConfirmFunding(_, _, _, _) => "Confirmed"
      case Settle(_, _, _, _) => "Settled"
      case Refund(_, _, _) => "Refunded"
      case Fail(_, _, _) => "Failed"
    }
  }

  function Formed(offer: Offer, accept: Accept, sign: Sign): Contract {
    Contract(offer.contractId, offer, accept, sign.offererSignature, sign.accepterSignature,
             None, sign.refundTimeout)
  }

  /** The next state of a contract, from the stored one if there is any. */
  function Transition(verify: Verifier, current: Option<DlcState>, op: Op): Result<DlcState> {
    if op.CreateOffer? then
      if current.Some? then Err(ContractAlreadyExists) else Ok(Offered(op.offer, op.now))
    else if op.Fail? then
      Ok(Failed(op.id, op.why, op.now))
    else
      match current
      case None => Err(ContractNotFound)
      case Some(st) =>
        match (st, op)
        case (Offered(offer, _), AcceptOffer(_, accept, now)) =>
          if accept.contractId != offer.contractId
          then Err(InvalidContract("Accept contract_id doesn't match offer"))
          else Ok(Accepted(offer, accept, now))
        case (Accepted(offer, accept, _), SignContract(id, sign, now)) =>
          if !verify(sign, offer.offerer, accept.accepter, id)
          then Err(InvalidSignature)
          else Ok(Signed(Formed(offer, accept, sign), now))
        case (Signed(contract, _), ConfirmFunding(_, height, txid, now)) =>
          Ok(Confirmed(contract.(fundingTxid := Some(txid)), now, height))
        case (Confirmed(contract, _, _), Settle(_, attestation, payout, now)) =>
          Ok(Settled(contract, attestation, now, payout))
        case (Confirmed(contract, _, _), Refund(_, reason, now)) => Ok(Refunded(contract, now, reason))
        case (Signed(contract, _), Refund(_, reason, now)) => Ok(Refunded(contract, now, reason))
        case (_, _) => Err(InvalidStateTransition(st.Name(), op.Goal()))
  }

  /** The names of the states an operation moves on from. */
  function Sources(op: Op): set<string> {
    match op
    case AcceptOffer(_, _, _) => {"Offered"}
    case SignContract(_, _, _) => {"Accepted"}
    case ConfirmFunding(_, _, _, _) => {"Signed"}
    case Settle(_, _, _, _) => {"Confirmed"}
    case Refund(_, _, _) => {"Signed", "Confirmed"}
    case _ => {}
  }

  /** What the parties must have supplied besides. */
  predicate Supplied(verify: Verifier, st: DlcState, op: Op) {
    && (op.AcceptOffer? && st.Offered? ==> op.accept.contractId == st.offer.contractId)
    && (op.SignContract? && st.Accepted? ==> verify(op.sign, st.offer.offerer, st.accept.accepter, op.id))
  }

  /** Exactly when an operation succeeds: an offer on a new contract, a failure always, the rest from their sources. */
  lemma SucceedsExactlyWhen(verify: Verifier, current: Option<DlcState>, op: Op)
    ensures Transition(verify, current, op).Ok? <==>
      if op.CreateOffer? then current.None?
      else op.Fail? || (current.Some? && current.value.Name() in Sources(op) && Supplied(verify, current.value, op))
    ensures Transition(verify, current, op).Ok? ==> Transition(verify, current, op).value.Name() == op.Goal()
  {
    if current.Some? {
      NamesTellStates(current.value);
    }
  }

  /** Which refusal an operation meets, and that it names the state and the goal when the state is the reason. */
  lemma RefusesWith(verify: Verifier, current: Option<DlcState>, op: Op)
    requires Transition(verify, current, op).Err?
    ensures var e := Transition(verify, current, op).error;
      if op.CreateOffer? then e == ContractAlreadyExists
      else if current.None? then e == ContractNotFound
      else if current.value.Name() !in Sources(op) then e == InvalidStateTransition(current.value.Name(), op.Goal())
      else if op.AcceptOffer? then e.InvalidContract?
      else op.SignContract? && e == InvalidSignature
  {
    if current.Some? {
      NamesTellStates(current.value);
    }
  }

  lemma NamesTellStates(st: DlcState)
    ensures st.Name() == "Offered" <==> st.Offered?
    ensures st.Name() == "Accepted" <==> st.Accepted?
    ensures st.Name() == "Signed" <==> st.Signed?
    ensures st.Name() == "Confirmed" <==> st.Confirmed?
    ensures st.IsActive() <==> st.Name() in {"Signed", "Confirmed"}
    ensures st.IsTerminal() <==> st.Name() in {"Settled", "Refunded", "Failed"}
  {
    assert "Signed"[0] == 'S' && "Failed"[0] == 'F' && "Offered"[0] == 'O' && "Settled"[0] == 'S';
    assert "Accepted"[0] == 'A' && "Refunded"[0] == 'R' && "Confirmed"[0] == 'C';
    assert |"Signed"| == 6 && |"Settled"| == 7 && |"Failed"| == 6;
  }

  function Lookup(s: D.Store, id: ContractId): Option<DlcState> {
    if id in s.states then Some(s.states[id]) else None
  }

  function Do(verify: Verifier, s: D.Store, op: Op): (D.Store, Result<DlcState>) {
    var r := Transition(verify, Lookup(s, op.Target()), op);
    (if r.Ok? then D.Saved(s, r.value) else s, r)
  }

  function Run(verify: Verifier, s: D.Store, ops: seq<Op>): D.Store
    decreases |ops|
  {
    if ops == [] then s else Run(verify, Do(verify, s, ops[0]).0, ops[1..])
  }

  // ---------- one step ----------

  function Rank(current: Option<DlcState>): nat {
    match current
    case None => 0
    case Some(Offered(_, _)) => 1
    case Some(Accepted(_, _, _)) => 2
    case Some(Signed(_, _)) => 3
    case Some(Confirmed(_, _, _)) => 4
    case Some(Settled(_, _, _, _)) => 5
    case Some(Refunded(_, _, _)) => 5
    case Some(Failed(_, _, _)) => 6
  }

  /** A step writes to its own contract alone, keeps the trees in agreement, and moves it forward. */
  lemma StepMovesForward(verify: Verifier, s: D.Store, op: Op, id: ContractId)
    requires D.Inv(s)
    ensures var (s', r) := Do(verify, s, op);
      && D.Inv(s')
      && (r.Err? ==> s' == s)
      && (id != op.Target() ==> Lookup(s', id) == Lookup(s, id))
      && (r.Ok? && id == op.Target() ==>
            && Lookup(s', id) == Some(r.value)
            && (Rank(Lookup(s, id)) < Rank(Lookup(s', id))
                || (op.Fail? && Lookup(s, id).Some? && Lookup(s, id).value.Failed?)))
  {
    var r := Do(verify, s, op).1;
    if r.Ok? {
      StaysUnderItsId(verify, s, op);
      D.SaveKeepsInv(s, r.value);
    }
  }

  lemma StaysUnderItsId(verify: Verifier, s: D.Store, op: Op)
    requires D.Inv(s) && Do(verify, s, op).1.Ok?
    ensures Do(verify, s, op).1.value.Id() == op.Target()
  {}

  // ---------- history ----------

  /** The operations of a run that succeeded on one contract, in order. */
  function Log(verify: Verifier, s: D.Store, ops: seq<Op>, id: ContractId): seq<Op>
    decreases |ops|
  {
    if ops == [] then []
    else
      Logged(verify, s, ops[0], id) + Log(verify, Do(verify, s, ops[0]).0, ops[1..], id)
  }

  /** These operations made this contract: its offer, its acceptance, and signatures that verified. */
  predicate Made(id: ContractId, log: seq<Op>, offer: Offer, accept: Accept) {
    && |log| >= 2
    && log[0].CreateOffer? && log[0].offer == offer && offer.contractId == id
    && log[1].AcceptOffer? && log[1].accept == accept && accept.contractId == id
  }

  predicate MadeAndSigned(verify: Verifier, id: ContractId, log: seq<Op>, contract: Contract) {
    && Made(id, log, contract.offer, contract.accept)
    && |log| >= 3
    && log[2].SignContract?
    && verify(log[2].sign, contract.offer.offerer, contract.accept.accepter, id)
    && contract.id == id
    && contract.offererSignature == log[2].sign.offererSignature
    && contract.accepterSignature == log[2].sign.accepterSignature
    && contract.refundTimeout == log[2].sign.refundTimeout
  }

  predicate MadeAndFunded(verify: Verifier, id: ContractId, log: seq<Op>, contract: Contract) {
    && MadeAndSigned(verify, id, log, contract)
    && |log| >= 4
    && log[3].ConfirmFunding? && contract.fundingTxid == Some(log[3].txid)
  }

  predicate NothingAfterFailing(log: seq<Op>) {
    forall i, j :: 0 <= i < j < |log| && log[i].Fail? ==> log[j].Fail?
  }

  /** A stored state and the log of its contract certify each other. */
  predicate Certified(verify: Verifier, id: ContractId, current: Option<DlcState>, log: seq<Op>) {
    match current
    case None => log == []
    case Some(Offered(offer, at)) =>
      log == [CreateOffer(offer, at)] && offer.contractId == id
    case Some(Accepted(offer, accept, at)) =>
      |log| == 2 && Made(id, log, offer, accept) && log[1].now == at
    case Some(Signed(contract, at)) =>
      |log| == 3 && MadeAndSigned(verify, id, log, contract) && log[2].now == at && contract.fundingTxid == None
    case Some(Confirmed(contract, at, height)) =>
      && |log| == 4 && MadeAndFunded(verify, id, log, contract)
      && log[3] == ConfirmFunding(id, height, contract.fundingTxid.value, at)
    case Some(Settled(contract, attestation, at, payout)) =>
      && |log| == 5 && MadeAndFunded(verify, id, log, contract)
      && log[4] == Settle(id, attestation, payout, at)
    case Some(Refunded(contract, at, reason)) =>
      && |log| > 0 && log[|log| - 1] == Refund(id, reason, at)
      && ((|log| == 4 && MadeAndSigned(verify, id, log, contract) && contract.fundingTxid == None)
          || (|log| == 5 && MadeAndFunded(verify, id, log, contract)))
    case Some(Failed(cid, why, at)) =>
      cid == id && |log| > 0 && log[|log| - 1] == Fail(id, why, at) && NothingAfterFailing(log)
  }

  /** An accepted transition extends a certified log. */
  lemma TransitionCertified(verify: Verifier, id: ContractId, current: Option<DlcState>, log: seq<Op>, op: Op)
    requires Certified(verify, id, current, log) && op.Target() == id
    requires Transition(verify, current, op).Ok?
    ensures Certified(verify, id, Some(Transition(verify, current, op).value), log + [op])
  {
    match op
    case CreateOffer(_, _) =>
    case AcceptOffer(_, _, _) =>
    case SignContract(_, _, _) =>
    case ConfirmFunding(_, _, _, _) =>
    case Settle(_, _, _, _) =>
    case Refund(_, _, _) =>
    case Fail(_, _, _) =>
  }

  lemma StepStaysCertified(verify: Verifier, s: D.Store, op: Op, id: ContractId, log: seq<Op>)
    requires D.Inv(s) && Certified(verify, id, Lookup(s, id), log)
    ensures Certified(verify, id, Lookup(Do(verify, s, op).0, id), log + Logged(verify, s, op, id))
  {
    StepMovesForward(verify, s, op, id);
    if Do(verify, s, op).1.Ok? && op.Target() == id {
      TransitionCertified(verify, id, Lookup(s, id), log, op);
    } else {
      assert log + [] == log;
    }
  }

  /** What the first operation of a run adds to a contract's log. */
  function Logged(verify: Verifier, s: D.Store, op: Op, id: ContractId): seq<Op> {
    if Do(verify, s, op).1.Ok? && op.Target() == id then [op] else []
  }

  lemma RunUnfolds(verify: Verifier, s: D.Store, ops: seq<Op>, id: ContractId, log: seq<Op>)
    requires ops != []
    ensures var (s', first) := (Do(verify, s, ops[0]).0, Logged(verify, s, ops[0], id));
      && Run(verify, s, ops) == Run(verify, s', ops[1..])
      && log + Log(verify, s, ops, id) == (log + first) + Log(verify, s', ops[1..], id)
  {
    var rest := Log(verify, Do(verify, s, ops[0]).0, ops[1..], id);
    assert log + (Logged(verify, s, ops[0], id) + rest) == (log + Logged(verify, s, ops[0], id)) + rest;
  }

  lemma {:induction false} RunStaysCertified(verify: Verifier, s: D.Store, ops: seq<Op>, id: ContractId, log: seq<Op>)
    requires D.Inv(s) && Certified(verify, id, Lookup(s, id), log)
    ensures D.Inv(Run(verify, s, ops))
    ensures Certified(verify, id, Lookup(Run(verify, s, ops), id), log + Log(verify, s, ops, id))
    decreases |ops|
  {
    if ops == [] {
      assert log + [] == log;
    } else {
      var s', first := Do(verify, s, ops[0]).0, Logged(verify, s, ops[0], id);
      RunUnfolds(verify, s, ops, id, log);
      StepMovesForward(verify, s, ops[0], id);
      StepStaysCertified(verify, s, ops[0], id, log);
      RunStaysCertified(verify, s', ops[1..], id, log + first);
    }
  }

  /**
   Stored states certify their history: after any run on a new store, the operations that
   succeeded on a contract are exactly those its stored state calls for. A settled one was
   offered, accepted, signed with verifying signatures, funded and settled, in that order
   and once each, with offer and acceptance unchanged.
   */
  lemma StatesCertifyTheirHistory(verify: Verifier, ops: seq<Op>, id: ContractId)
    ensures var s := Run(verify, D.EMPTY, ops);
      D.Inv(s) && Certified(verify, id, Lookup(s, id), Log(verify, D.EMPTY, ops, id))
  {
    RunStaysCertified(verify, D.EMPTY, ops, id, []);
    assert [] + Log(verify, D.EMPTY, ops, id) == Log(verify, D.EMPTY, ops, id);
  }

  /** How many operations of a run succeeded on a contract, not counting failing it yet again. */
  function Moves(verify: Verifier, s: D.Store, ops: seq<Op>, id: ContractId): nat
    decreases |ops|
  {
    if ops == [] then 0
    else
      var (s', r) := Do(verify, s, ops[0]);
      var again := Lookup(s, id).Some? && Lookup(s, id).value.Failed?;
      (if r.Ok? && ops[0].Target() == id && !again then 1 else 0) + Moves(verify, s', ops[1..], id)
  }

  /** A contract moves at most six times, and can never be brought back. */
  lemma {:induction false} RunsAreBounded(verify: Verifier, s: D.Store, ops: seq<Op>, id: ContractId)
    requires D.Inv(s)
    ensures Rank(Lookup(s, id)) + Moves(verify, s, ops, id) <= Rank(Lookup(Run(verify, s, ops), id)) <= 6
    ensures Lookup(s, id).Some? ==> Lookup(Run(verify, s, ops), id).Some?
    decreases |ops|
  {
    if ops != [] {
      StepMovesForward(verify, s, ops[0], id);
      RunsAreBounded(verify, Do(verify, s, ops[0]).0, ops[1..], id);
    }
  }

  /** A terminal contract accepts nothing but being failed; failing is always accepted. */
  lemma TerminalStatesStay(verify: Verifier, s: D.Store, op: Op)
    ensures op.Fail? ==> Do(verify, s, op).1 == Ok(Failed(op.id, op.why, op.now))
    ensures Lookup(s, op.Target()).Some? && Lookup(s, op.Target()).value.IsTerminal() ==>
      (Do(verify, s, op).1.Ok? <==> op.Fail?)
  {}

  /** The contracts of a store whose funds are locked. */
  ghost function ActiveIn(s: D.Store): set<ContractId> {
    set id | id in s.states && s.states[id].IsActive()
  }

  // ---------- the state machine object ----------

  class StateMachine {
    const storage: D.Storage
    const verify: Verifier

    constructor (storage: D.Storage, verify: Verifier)
      ensures this.storage == storage && this.verify == verify
    {
      this.storage := storage;
      this.verify := verify;
    }

    method CreateOffer(offer: Offer, now: nat) returns (r: Result<DlcState>)
      requires storage.Valid()
      modifies storage
      ensures storage.Valid()
      ensures (storage.View(), r) == Do(verify, old(storage.View()), Op.CreateOffer(offer, now))
    {
      var existing := storage.Get(offer.contractId);
      if existing.Some? {
        return Err(ContractAlreadyExists);
      }
      var state := Offered(offer, now);
      storage.Save(state);
      r := Ok(state);
    }

    method GetState(id: ContractId) returns (r: Result<DlcState>)
      ensures r == match Lookup(storage.View(), id)
                   case Some(st) => Ok(st)
                   case None => Err(ContractNotFound)
    {
      var found := storage.Get(id);
      r := if found.Some? then Ok(found.value) else Err(ContractNotFound);
    }

    method AcceptOffer(id: ContractId, accept: Accept, now: nat) returns (r: Result<DlcState>)
      requires storage.Valid()
      modifies storage
      ensures storage.Valid()
      ensures (storage.View(), r) == Do(verify, old(storage.View()), Op.AcceptOffer(id, accept, now))
    {
      var current := GetState(id);
      if current.Err? {
        return current;
      }
      var state;
      match current.value {
        case Offered(offer, _) =>
          if accept.contractId != offer.contractId {
            return Err(InvalidContract("Accept contract_id doesn't match offer"));
          }
          state := Accepted(offer, accept, now);
        case other =>
          return Err(InvalidStateTransition(other.Name(), "Accepted"));
      }
      storage.Save(state);
      r := Ok(state);
    }

    method SignContract(id: ContractId, sign: Sign, now: nat) returns (r: Result<DlcState>)
      requires storage.Valid()
      modifies storage
      ensures storage.Valid()
      ensures (storage.View(), r) == Do(verify, old(storage.View()), Op.SignContract(id, sign, now))
    {
      var current := GetState(id);
      if current.Err? {
        return current;
      }
      var state;
      match current.value {
        case Accepted(offer, accept, _) =>
          if !verify(sign, offer.offerer, accept.accepter, id) {
            return Err(InvalidSignature);
          }
          var contract := Contract(
            offer.contractId, offer, accept, sign.offererSignature, sign.accepterSignature,
            None, sign.refundTimeout);
          state := Signed(contract, now);
        case other =>
          return Err(InvalidStateTransition(other.Name(), "Signed"));
      }
      storage.Save(state);
      r := Ok(state);
    }

    method ConfirmFunding(id: ContractId, blockHeight: nat, txid: seq<byte>, now: nat) returns (r: Result<DlcState>)
      requires storage.Valid()
      modifies storage
      ensures storage.Valid()
      ensures (storage.View(), r) == Do(verify, old(storage.View()), Op.ConfirmFunding(id, blockHeight, txid, now))
    {
      var current := GetState(id);
      if current.Err? {
        return current;
      }
      var state;
      match current.value {
        case Signed(contract, _) =>
          var funded := contract.(fundingTxid := Some(txid));
          state := Confirmed(funded, now, blockHeight);
        case other =>
          return Err(InvalidStateTransition(other.Name(), "Confirmed"));
      }
      storage.Save(state);
      r := Ok(state);
    }

    method Settle(id: ContractId, attestation: Attestation, ourPayout: nat, now: nat) returns (r: Result<DlcState>)
      requires storage.Valid()
      modifies storage
      ensures storage.Valid()
      ensures (storage.View(), r) == Do(verify, old(storage.View()), Op.Settle(id, attestation, ourPayout, now))
    {
      var current := GetState(id);
      if current.Err? {
        return current;
      }
      var state;
      match current.value {
        case Confirmed(contract, _, _) =>
          state := Settled(contract, attestation, now, ourPayout);
        case other =>
          return Err(InvalidStateTransition(other.Name(), "Settled"));
      }
      storage.Save(state);
      r := Ok(state);
    }

    method Refund(id: ContractId, reason: RefundReason, now: nat) returns (r: Result<DlcState>)
      requires storage.Valid()
      modifies storage
      ensures storage.Valid()
      ensures (storage.View(), r) == Do(verify, old(storage.View()), Op.Refund(id, reason, now))
    {
      var current := GetState(id);
      if current.Err? {
        return current;
      }
      var state;
      match current.value {
        case Confirmed(contract, _, _) => state := Refunded(contract, now, reason);
        case Signed(contract, _) => state := Refunded(contract, now, reason);
        case other =>
          return Err(InvalidStateTransition(other.Name(), "Refunded"));
      }
      storage.Save(state);
      r := Ok(state);
    }

    method Fail(id: ContractId, why: string, now: nat) returns (r: Result<DlcState>)
      requires storage.Valid()
      modifies storage
      ensures storage.Valid()
      ensures (storage.View(), r) == Do(verify, old(storage.View()), Op.Fail(id, why, now))
    {
      var state := Failed(id, why, now);
      storage.Save(state);
      r := Ok(state);
    }

    /** The contracts whose funds are locked. */
    method ListActive() returns (results: seq<DlcState>)
      requires storage.Valid()
      ensures D.Lists(results, storage.View(), ActiveIn(storage.View()))
    {
      var signed := storage.ListByState("Signed");
      var confirmed := storage.ListByState("Confirmed");
      results := signed + confirmed;
      ghost var s := storage.View();
      forall id | id in s.states
        ensures s.states[id].IsActive() <==> s.states[id].Name() == "Signed" || s.states[id].Name() == "Confirmed"
        ensures s.states[id].Name() == "Signed" ==> s.states[id].Name() != "Confirmed"
      {
        NamesTellStates(s.states[id]);
      }
      D.ListsBoth(signed, confirmed, s, D.Named(s, "Signed"), D.Named(s, "Confirmed"));
      assert ActiveIn(s) == D.Named(s, "Signed") + D.Named(s, "Confirmed");
    }
  }
}
