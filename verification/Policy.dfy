/**
 The signing policy: blocked requesters, an operation allowlist, a sliding-window rate
 limit and an hourly amount cap. The recorded times and hourly totals are pruned as the
 clock advances.
 */
module Policy {
  import opened Prelude

  /** Sixty seconds, in the nanoseconds of the monotonic clock. */
  const WINDOW: int := 60_000_000_000

  datatype Operation =
    | ContractOffer(id: ContractId)
    | ContractAccept(id: ContractId)
    | ContractExecute(id: ContractId, amount: nat)
    | Refund(id: ContractId, amount: nat)
    | Withdrawal(amount: nat)
    | Deposit(amount: nat)
    | Message
  {
    /** The operations that move an amount of sats. */
    predicate Monetary() { ContractExecute? || Refund? || Withdrawal? || Deposit? }

    function Amount(): Option<nat> {
      match this
      case ContractExecute(_, amount) => Some(amount)
      case Refund(_, amount) => Some(amount)
      case Withdrawal(amount) => Some(amount)
      case Deposit(amount) => Some(amount)
      case _ => None
    }

    function Name(): string {
      match this
      case ContractOffer(_) => "contract_offer"
      case ContractAccept(_) => "contract_accept"
      case ContractExecute(_, _) => "contract_execute"
      case Refund(_, _) => "refund"
      case Withdrawal(_) => "withdrawal"
      case Deposit(_) => "deposit"
      case Message => "message"
    }
  }

  datatype Request = Request(operation: Operation, message: seq<byte>, keyId: string, requester: string)

  datatype Config = Config(
    maxSignsPerMinute: nat, maxAmountPerSign: nat, maxAmountPerHour: nat,
    allowedOperations: seq<string>, blockedRequesters: seq<string>)

  /** What the policy remembers: recent signing times, and sats signed by hour. */
  datatype Guard = Guard(recent: seq<int>, hourly: map<nat, nat>)

  const NEW_GUARD := Guard([], map[])

  function CountAfter(times: seq<int>, cutoff: int): nat {
    if times == [] then 0
    else CountAfter(times[..|times| - 1], cutoff) + if times[|times| - 1] > cutoff then 1 else 0
  }

  function Retained(times: seq<int>, cutoff: int): seq<int> {
    if times == [] then []
    else Retained(times[..|times| - 1], cutoff)
         + if times[|times| - 1] > cutoff then [times[|times| - 1]] else []
  }

  function SignedIn(hourly: map<nat, nat>, hour: nat): nat {
    if hour in hourly then hourly[hour] else 0
  }

  /** The u64 predecessor, which wraps around at hour zero. */
  function PreviousHour(hour: nat): nat {
    if hour == 0 then U64 - 1 else hour - 1
  }

  function WithoutOldHours(hourly: map<nat, nat>, hour: nat): map<nat, nat> {
    map h | h in hourly && h >= PreviousHour(hour) :: hourly[h]
  }

  // ---------- decisions ----------

  /** Which operations an allowlist entry stands for; other texts stand for none. */
  predicate StandsFor(entry: string, op: Operation) {
    || (entry == "contract_offer" && op.ContractOffer?)
    || (entry == "contract_accept" && op.ContractAccept?)
    || (entry == "contract_execute" && op.ContractExecute?)
    || (entry == "refund" && op.Refund?)
    || (entry == "withdrawal" && op.Withdrawal?)
    || (entry == "deposit" && op.Deposit?)
    || (entry == "message" && op.Message?)
  }

  /** The requester is not blocked, and the allowlist, if there is one, has an entry for the operation. */
  predicate Permitted(c: Config, request: Request) {
    && request.requester !in c.blockedRequesters
    && (c.allowedOperations != [] ==>
          exists entry :: entry in c.allowedOperations && StandsFor(entry, request.operation))
  }

  lemma AllowedByName(c: Config, op: Operation)
    ensures op.Name() in c.allowedOperations
       <==> exists entry :: entry in c.allowedOperations && StandsFor(entry, op)
  {
    assert StandsFor(op.Name(), op);
    assert forall entry :: StandsFor(entry, op) ==> entry == op.Name();
  }

  function AmountVerdict(c: Config, amount: nat, signedThisHour: nat): Result<()> {
    if amount > c.maxAmountPerSign then
      Err(PolicyViolation("Amount exceeds per-sign limit"))
    else if signedThisHour + amount > c.maxAmountPerHour then
      Err(PolicyViolation("Hourly limit exceeded"))
    else
      Ok(())
  }

  /** The verdict on a request, given the signatures and the sats that count against it. */
  function Verdict(c: Config, request: Request, recentCount: nat, signedThisHour: nat): (r: Result<()>)
    ensures r.Ok? <==>
      && Permitted(c, request)
      && recentCount < c.maxSignsPerMinute
      && (request.operation.Monetary() ==>
            && request.operation.amount <= c.maxAmountPerSign
            && signedThisHour + request.operation.amount <= c.maxAmountPerHour)
    ensures Permitted(c, request) && c.maxSignsPerMinute <= recentCount
       <==> r == Err(RateLimitExceeded(c.maxSignsPerMinute, recentCount + 1))
    ensures r.Err? ==> r.error.RateLimitExceeded? || r.error.PolicyViolation?
  {
    AllowedByName(c, request.operation);
    if request.requester in c.blockedRequesters then
      Err(PolicyViolation("Requester is blocked"))
    else if c.allowedOperations != [] && request.operation.Name() !in c.allowedOperations then
      Err(PolicyViolation("Operation is not allowed"))
    else if recentCount >= c.maxSignsPerMinute then
      Err(RateLimitExceeded(c.maxSignsPerMinute, recentCount + 1))
    else
      match request.operation.Amount()
      case None => Ok(())
      case Some(amount) =>
        AmountVerdict(c, amount, signedThisHour)
  }

  function Validated(c: Config, g: Guard, request: Request, now: int, hour: nat): Result<()> {
    Verdict(c, request, CountAfter(g.recent, now - WINDOW), SignedIn(g.hourly, hour))
  }

  function Recorded(g: Guard, request: Request, pushAt: int, pruneAt: int, hour: nat): Guard {
    Guard(
      Retained(g.recent + [pushAt], pruneAt - WINDOW),
      match request.operation.Amount()
      case None => g.hourly
      case Some(amount) =>
        WithoutOldHours(g.hourly[hour := SignedIn(g.hourly, hour) + amount], hour))
  }

  // ---------- what pruning keeps ----------

  /** The list keeps every time after the cutoff, as often as it was there, and nothing else. */
  lemma {:induction false} RetainedExactly(times: seq<int>, cutoff: int, t: int)
    ensures multiset(Retained(times, cutoff))[t] == if t > cutoff then multiset(times)[t] else 0
  {
    if times != [] {
      var front, last := times[..|times| - 1], times[|times| - 1];
      RetainedExactly(front, cutoff, t);
      assert times == front + [last];
      assert Retained(times, cutoff) == Retained(front, cutoff) + if last > cutoff then [last] else [];
    }
  }

  /**
   Recording leaves no time a minute old or older, and no hour before the previous one; in
   hour zero the predecessor is the largest u64 value.
   */
  lemma RecordingForgetsTheOld(g: Guard, request: Request, pushAt: int, pruneAt: int, hour: nat)
    ensures var g' := Recorded(g, request, pushAt, pruneAt, hour);
      && (forall t :: t in g'.recent <==> (t in g.recent || t == pushAt) && pruneAt - 60_000_000_000 < t)
      && (request.operation.Monetary() ==>
            forall h :: h in g'.hourly <==>
              (h in g.hourly || h == hour) && (if hour == 0 then 0xFFFF_FFFF_FFFF_FFFF else hour - 1) <= h)
      && (!request.operation.Monetary() ==> g'.hourly == g.hourly)
  {
    var g' := Recorded(g, request, pushAt, pruneAt, hour);
    forall t ensures t in g'.recent <==> (t in g.recent || t == pushAt) && pruneAt - 60_000_000_000 < t {
      RetainedExactly(g.recent + [pushAt], pruneAt - WINDOW, t);
      assert t in g'.recent <==> multiset(g'.recent)[t] > 0;
      assert t in g.recent + [pushAt] <==> multiset(g.recent + [pushAt])[t] > 0;
    }
  }

  // ---------- the policy object ----------

  class SigningPolicy {
    const config: Config
    var recentSigns: seq<int>
    var hourlyAmounts: map<nat, nat>

    constructor (config: Config)
      ensures this.config == config && View() == NEW_GUARD
    {
      this.config := config;
      recentSigns, hourlyAmounts := [], map[];
    }

    function View(): Guard
      reads this
    {
      Guard(recentSigns, hourlyAmounts)
    }

    method Validate(request: Request, now: int, hour: nat) returns (r: Result<()>)
      ensures r == Validated(config, View(), request, now, hour)
    {
      if request.requester in config.blockedRequesters {
        return Err(PolicyViolation("Requester is blocked"));
      }
      if config.allowedOperations != [] {
        var name := request.operation.Name();
        if name !in config.allowedOperations {
          return Err(PolicyViolation("Operation is not allowed"));
        }
      }
      var recentCount := CountAfter(recentSigns, now - WINDOW);
      if recentCount >= config.maxSignsPerMinute {
        return Err(RateLimitExceeded(config.maxSignsPerMinute, recentCount + 1));
      }
      var amount := request.operation.Amount();
      if amount.Some? {
        r := CheckAmountLimit(amount.value, hour);
        return r;
      }
      r := Ok(());
    }

    method CheckAmountLimit(amount: nat, hour: nat) returns (r: Result<()>)
      ensures r == AmountVerdict(config, amount, SignedIn(hourlyAmounts, hour))
    {
      if amount > config.maxAmountPerSign {
        return Err(PolicyViolation("Amount exceeds per-sign limit"));
      }
      var current := if hour in hourlyAmounts then hourlyAmounts[hour] else 0;
      if current + amount > config.maxAmountPerHour {
        return Err(PolicyViolation("Hourly limit exceeded"));
      }
      r := Ok(());
    }

    method RecordSign(request: Request, pushAt: int, pruneAt: int, hour: nat)
      modifies this
      ensures View() == Recorded(old(View()), request, pushAt, pruneAt, hour)
    {
      recentSigns := recentSigns + [pushAt];
      recentSigns := Retained(recentSigns, pruneAt - WINDOW);
      var amount := request.operation.Amount();
      if amount.Some? {
        if hour !in hourlyAmounts {
          hourlyAmounts := hourlyAmounts[hour := 0];
        }
        hourlyAmounts := hourlyAmounts[hour := hourlyAmounts[hour] + amount.value];
        assert hourlyAmounts == old(hourlyAmounts)[hour := SignedIn(old(hourlyAmounts), hour) + amount.value];
        hourlyAmounts := WithoutOldHours(hourlyAmounts, hour);
      }
    }
  }
}
