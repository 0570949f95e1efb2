/**
 * The before-send listener: one metered contract call per hooked coin, with two layers of panic
 * recovery around it.
 */
module BeforeSend {
  import opened Common
  import opened Messages
  import opened Denoms

  const BEFORE_SEND_HOOK_GAS_LIMIT: nat := 500_000
  const MAX_GAS: int := TWO64 - 1

  type Gas = n: int | 0 <= n <= MAX_GAS witness 0

  // ----- gas meters ------------------------------------------------------------------

  /** A gas meter of the SDK; without a limit it is the infinite one. */
  datatype Meter = Meter(limit: Option<nat>, consumed: Gas) {
    /** GasRemaining */
    function Remaining(): nat {
      match limit
      case None => MAX_GAS
      case Some(l) => if consumed > l then 0 else l - consumed
    }

    /** What ConsumeGas leaves in the meter: the sum, or the largest uint64. */
    function Plus(amount: nat): Meter {
      this.(consumed := if consumed + amount > MAX_GAS then MAX_GAS else consumed + amount)
    }

    /** Whether ConsumeGas panics: on overflow, or beyond the limit. */
    predicate PanicsOn(amount: nat) {
      consumed + amount > MAX_GAS || (limit.Some? && consumed + amount > limit.value)
    }
  }

  /** Several charges, made one after the other until one panics: how much was asked for. */
  function Asked(m: Meter, charges: seq<nat>): nat
    decreases |charges|
  {
    if charges == [] then 0
    else if m.PanicsOn(charges[0]) then charges[0]
    else charges[0] + Asked(m.Plus(charges[0]), charges[1..])
  }

  function Sum(charges: seq<nat>): nat
    decreases |charges|
  {
    if charges == [] then 0 else charges[0] + Sum(charges[1..])
  }

  /** Whether one of several charges panics. */
  predicate ChargesPanic(m: Meter, charges: seq<nat>)
    decreases |charges|
  {
    charges != [] && (m.PanicsOn(charges[0]) || ChargesPanic(m.Plus(charges[0]), charges[1..]))
  }

  lemma PlusTwice(m: Meter, a: nat, b: nat)
    ensures m.Plus(a).Plus(b) == m.Plus(a + b)
  {
  }

  /**
   * A meter within its limit panics exactly on more than what remains; one without limit exactly
   * when its 64-bit counter overflows.
   */
  lemma PanicsBeyondRemaining(m: Meter, amount: nat)
    requires m.limit.Some? ==> m.consumed <= m.limit.value < TWO64
    ensures m.limit.Some? ==> (m.PanicsOn(amount) <==> amount > m.Remaining())
    ensures m.limit.None? ==> (m.PanicsOn(amount) <==> m.consumed + amount >= TWO64)
  {
  }

  lemma PanicsTwice(m: Meter, a: nat, b: nat)
    ensures !m.PanicsOn(a) ==> (m.Plus(a).PanicsOn(b) <==> m.PanicsOn(a + b))
    ensures m.PanicsOn(a) ==> m.PanicsOn(a + b)
  {
  }

  /** Charging one by one panics where the sum does, and otherwise asks for the whole sum. */
  lemma {:induction false} AskedIsSum(m: Meter, charges: seq<nat>)
    ensures ChargesPanic(m, charges) <==> charges != [] && m.PanicsOn(Sum(charges))
    ensures Asked(m, charges) <= Sum(charges)
    ensures if ChargesPanic(m, charges) then m.PanicsOn(Asked(m, charges)) else Asked(m, charges) == Sum(charges)
    decreases |charges|
  {
    if charges != [] {
      var c, rest := charges[0], charges[1..];
      AskedIsSum(m.Plus(c), rest);
      PanicsTwice(m, c, Sum(rest));
      PanicsTwice(m, c, Asked(m.Plus(c), rest));
      assert rest == [] ==> Sum(charges) == c;
      hide Meter.PanicsOn, Meter.Plus;
    }
  }

  class GasMeter {
    const limit: Option<nat>
    var consumed: Gas

    ghost function View(): Meter
      reads this
    {
      Meter(limit, consumed)
    }

    constructor (limit: Option<nat>)
      ensures View() == Meter(limit, 0)
    {
      this.limit, consumed := limit, 0;
    }

    /** ConsumeGas; the panic is returned. */
    method ConsumeGas(amount: nat) returns (panics: bool)
      modifies this
      ensures View() == old(View()).Plus(amount)
      ensures panics == old(View()).PanicsOn(amount)
    {
      if consumed + amount > MAX_GAS {
        consumed := MAX_GAS;
        return true;
      }
      consumed := consumed + amount;
      panics := limit.Some? && consumed > limit.value;
    }

    /** Charge after charge, until one panics. */
    method ConsumeAll(charges: seq<nat>) returns (panics: bool)
      modifies this
      ensures View() == old(View()).Plus(Asked(old(View()), charges))
      ensures panics == ChargesPanic(old(View()), charges)
    {
      ghost var m := View();
      ghost var done: nat := 0;
      assert charges[0..] == charges;
      for i := 0 to |charges|
        invariant View() == m.Plus(done)
        invariant Asked(m, charges) == done + Asked(View(), charges[i..])
        invariant ChargesPanic(m, charges) == ChargesPanic(View(), charges[i..])
      {
        assert charges[i..][0] == charges[i] && charges[i..][1..] == charges[i + 1..];
        PlusTwice(m, done, charges[i]);
        panics := ConsumeGas(charges[i]);
        done := done + charges[i];
        if panics {
          return;
        }
      }
      panics := false;
    }

    method GasRemaining() returns (n: nat)
      ensures n == View().Remaining()
    {
      if limit.None? {
        return MAX_GAS;
      }
      n := if consumed > limit.value then 0 else limit.value - consumed;
    }
  }

  // ----- contracts ------------------------------------------------------------------------

  /** One sudo call: for which coin, to which contract, under which gas limit. */
  datatype Call = Call(denom: Bytes, contract: Bytes, gasLimit: nat)

  datatype Ending = Returns | Errs | Panics

  /**
   * How a contract call went: any ending, any gas on the child meter, and whether the error text
   * mentions "no such contract".
   */
  datatype Behaviour = Behaviour(ending: Ending, gas: nat, noSuchContract: bool)

  /**
   * What surrounds the listener. Contracts may do anything, so their behaviour depends on how
   * many calls went before, and so do the hooks, which a contract may change.
   */
  datatype Env = Env(
    bech: Bech32,
    hook: (nat, Bytes) -> Bytes,        // GetBeforeSendHook after so many calls
    readGas: (nat, Bytes) -> seq<nat>,  // the store's charges for reading that hook, in their order
    contract: (nat, Call) -> Behaviour) // the k-th call

  datatype Verdict = Fine | OutOfGas | BadHook | HookFailed

  /** How a piece of Go code is left: by returning, or by a panic on its way to a recovery. */
  datatype Exit = Returned(verdict: Verdict) | Panicking

  /**
   * How the loop was left, the parent meter, the calls made, the number of coins whose hook was
   * looked up, and the store gas those lookups asked for.
   */
  datatype Heard = Heard(exit: Exit, meter: Meter, calls: seq<Call>, looked: nat, asked: nat)

  function Min(a: nat, b: nat): nat {
    if a < b then a else b
  }

  /** What the loop does about one coin. */
  datatype Turn =
    | Stopped(exit: Exit, meter: Meter, calls: seq<Call>, asked: nat)
    | Unhooked(meter: Meter, asked: nat)
    | Called(call: Call, meter: Meter, asked: nat)

  function TurnOf(env: Env, fromModule: bool, k: nat, denom: Bytes, m: Meter): Turn {
    var charges := env.readGas(k, denom);
    var asked := Asked(m, charges);
    var read := m.Plus(asked);
    var hook := env.hook(k, denom);
    if ChargesPanic(m, charges) then Stopped(Panicking, read, [], asked)
    else if hook == [] then Unhooked(read, asked)
    else if !env.bech.Parses(hook) then Stopped(Returned(BadHook), read, [], asked)
    else
      var call := Call(denom, hook, Min(read.Remaining(), BEFORE_SEND_HOOK_GAS_LIMIT));
      var run := env.contract(k, call);
      var paid := read.Plus(run.gas);
      if read.PanicsOn(run.gas) then Stopped(Panicking, paid, [call], asked)
      else if run.ending == Returns then Called(call, paid, asked)
      else Stopped(Returned(if run.noSuchContract || fromModule then Fine else HookFailed), paid, [call], asked)
  }

  /** The loop of callBeforeSendListener over the coins still to come, `k` calls having been made. */
  function Loop(env: Env, fromModule: bool, k: nat, coins: seq<Coin>, m: Meter): Heard
    decreases |coins|
  {
    if coins == [] then Heard(Returned(Fine), m, [], 0, 0)
    else
      match TurnOf(env, fromModule, k, coins[0].denom, m)
      case Stopped(exit, meter, calls, asked) => Heard(exit, meter, calls, 1, asked)
      case Unhooked(meter, asked) => After([], 1, asked, Loop(env, fromModule, k, coins[1..], meter))
      case Called(call, meter, asked) => After([call], 1, asked, Loop(env, fromModule, k + 1, coins[1..], meter))
  }

  /** The outcome with earlier calls and lookups put in front. */
  function After(calls: seq<Call>, looked: nat, asked: nat, h: Heard): Heard {
    h.(calls := calls + h.calls, looked := looked + h.looked, asked := asked + h.asked)
  }

  /** The deferred recovery around the whole listener. */
  function Recovered(exit: Exit): Verdict {
    match exit
    case Returned(verdict) => verdict
    case Panicking => OutOfGas
  }

  /** callBeforeSendListener */
  function Listen(env: Env, fromModule: bool, coins: seq<Coin>, m: Meter): Heard {
    var h := Loop(env, fromModule, 0, coins, m);
    h.(exit := Returned(Recovered(h.exit)))
  }

  lemma AfterTwice(c1: seq<Call>, n1: nat, a1: nat, c2: seq<Call>, n2: nat, a2: nat, h: Heard)
    ensures After(c1, n1, a1, After(c2, n2, a2, h)) == After(c1 + c2, n1 + n2, a1 + a2, h)
  {
    assert c1 + (c2 + h.calls) == c1 + c2 + h.calls;
  }

  datatype Flow = Normal(failed: bool, noSuchContract: bool) | Escaping

  /**
   * The inner function: the contract runs, then the deferred code charges the parent first and
   * recovers second, so that a panic of the charge itself goes on to the caller.
   */
  method CallContract(env: Env, k: nat, call: Call, parent: GasMeter) returns (flow: Flow)
    modifies parent
    ensures parent.View() == old(parent.View()).Plus(env.contract(k, call).gas)
    ensures flow == if old(parent.View()).PanicsOn(env.contract(k, call).gas) then Escaping
                    else Normal(env.contract(k, call).ending != Returns, env.contract(k, call).noSuchContract)
  {
    var run := env.contract(k, call);
    var chargePanics := parent.ConsumeGas(run.gas);
    if chargePanics {
      return Escaping;
    }
    flow := Normal(run.ending != Returns, run.noSuchContract);
  }

  /** The body of the loop for one coin; a panic leaves it as a panic. */
  method HearCoin(env: Env, fromModule: bool, k: nat, denom: Bytes, parent: GasMeter) returns (turn: Turn)
    modifies parent
    ensures turn == TurnOf(env, fromModule, k, denom, old(parent.View()))
    ensures turn.meter == parent.View()
  {
    hide Meter.Plus, Meter.PanicsOn, Meter.Remaining, Asked, ChargesPanic;
    ghost var m := parent.View();
    var asked := Asked(Meter(parent.limit, parent.consumed), env.readGas(k, denom));
    var readPanics := parent.ConsumeAll(env.readGas(k, denom));
    if readPanics {
      return Stopped(Panicking, Meter(parent.limit, parent.consumed), [], asked);
    }
    var hook := env.hook(k, denom);
    if hook == [] {
      return Unhooked(Meter(parent.limit, parent.consumed), asked);
    }
    if !env.bech.Parses(hook) {
      return Stopped(Returned(BadHook), Meter(parent.limit, parent.consumed), [], asked);
    }
    var remaining := parent.GasRemaining();
    var call := Call(denom, hook, Min(remaining, BEFORE_SEND_HOOK_GAS_LIMIT));
    var flow := CallContract(env, k, call, parent);
    var now := Meter(parent.limit, parent.consumed);
    if flow == Escaping {
      return Stopped(Panicking, now, [call], asked);
    }
    if flow.failed {
      return Stopped(Returned(if flow.noSuchContract || fromModule then Fine else HookFailed), now, [call], asked);
    }
    turn := Called(call, now, asked);
  }

  /** After `looked` coins and these calls, what is left to hear is the rest of the coins. */
  ghost predicate Underway(env: Env, fromModule: bool, coins: seq<Coin>, whole: Heard,
                           calls: seq<Call>, looked: nat, asked: nat, m: Meter)
  {
    looked <= |coins| && whole == After(calls, looked, asked, Loop(env, fromModule, |calls|, coins[looked..], m))
  }

  lemma NextTurn(env: Env, fromModule: bool, coins: seq<Coin>, whole: Heard,
                 calls: seq<Call>, looked: nat, asked: nat, m: Meter)
    requires looked < |coins| && Underway(env, fromModule, coins, whole, calls, looked, asked, m)
    ensures var t := TurnOf(env, fromModule, |calls|, coins[looked].denom, m);
            && (t.Stopped? ==> whole == Heard(t.exit, t.meter, calls + t.calls, looked + 1, asked + t.asked))
            && (t.Unhooked? ==> Underway(env, fromModule, coins, whole, calls, looked + 1, asked + t.asked, t.meter))
            && (t.Called? ==>
                 Underway(env, fromModule, coins, whole, calls + [t.call], looked + 1, asked + t.asked, t.meter))
  {
    hide TurnOf;
    var rest := coins[looked..];
    assert rest[0] == coins[looked] && rest[1..] == coins[looked + 1..];
    match TurnOf(env, fromModule, |calls|, coins[looked].denom, m)
    case Stopped(_, _, _, _) =>
    case Unhooked(n, a) =>
      AfterTwice(calls, looked, asked, [], 1, a, Loop(env, fromModule, |calls|, coins[looked + 1..], n));
      assert calls + [] == calls;
    case Called(call, n, a) =>
      AfterTwice(calls, looked, asked, [call], 1, a, Loop(env, fromModule, |calls| + 1, coins[looked + 1..], n));
  }

  lemma UnderwayAtFirst(env: Env, fromModule: bool, coins: seq<Coin>, m: Meter)
    ensures Underway(env, fromModule, coins, Loop(env, fromModule, 0, coins, m), [], 0, 0, m)
  {
    assert coins[0..] == coins;
    var h := Loop(env, fromModule, 0, coins, m);
    assert [] + h.calls == h.calls;
  }

  lemma UnderwayAtLast(env: Env, fromModule: bool, coins: seq<Coin>, whole: Heard,
                       calls: seq<Call>, asked: nat, m: Meter)
    requires Underway(env, fromModule, coins, whole, calls, |coins|, asked, m)
    ensures whole == Heard(Returned(Fine), m, calls, |coins|, asked)
  {
    assert calls + [] == calls;
  }

  /** The loop over the coins, left at the first failure; it may be left by a panic. */
  method ListenLoop(env: Env, fromModule: bool, coins: seq<Coin>, parent: GasMeter)
    returns (exit: Exit, calls: seq<Call>, looked: nat, asked: nat)
    modifies parent
    ensures Heard(exit, parent.View(), calls, looked, asked) == Loop(env, fromModule, 0, coins, old(parent.View()))
  {
    hide TurnOf, Loop, Underway, After;
    calls, looked, asked := [], 0, 0;
    ghost var whole := Loop(env, fromModule, 0, coins, parent.View());
    UnderwayAtFirst(env, fromModule, coins, parent.View());
    while looked < |coins|
      invariant looked <= |coins|
      invariant Underway(env, fromModule, coins, whole, calls, looked, asked, parent.View())
      decreases |coins| - looked
    {
      NextTurn(env, fromModule, coins, whole, calls, looked, asked, parent.View());
      var turn := HearCoin(env, fromModule, |calls|, coins[looked].denom, parent);
      looked, asked := looked + 1, asked + turn.asked;
      match turn {
        case Stopped(e, _, last, _) => return e, calls + last, looked, asked;
        case Unhooked(_, _) =>
        case Called(call, _, _) => calls := calls + [call];
      }
    }
    UnderwayAtLast(env, fromModule, coins, whole, calls, asked, parent.View());
    exit := Returned(Fine);
  }

  /**
   * callBeforeSendListener: the outer deferred function recovers whatever panic leaves the loop
   * and returns ErrBeforeSendHookOutOfGas for it.
   */
  method CallBeforeSendListener(env: Env, fromModule: bool, coins: seq<Coin>, parent: GasMeter)
    returns (exit: Exit, calls: seq<Call>, looked: nat, asked: nat)
    modifies parent
    ensures Heard(exit, parent.View(), calls, looked, asked) == Listen(env, fromModule, coins, old(parent.View()))
    ensures exit != Panicking
  {
    hide Loop;
    exit, calls, looked, asked := ListenLoop(env, fromModule, coins, parent);
    if exit == Panicking {
      exit := Returned(OutOfGas);
    }
  }

  // ----- what any contracts can and cannot do ---------------------------------------------------

  /** Gas of the first calls, as their child meters report it. */
  function ChildGas(env: Env, k: nat, calls: seq<Call>): nat
    decreases |calls|
  {
    if calls == [] then 0 else env.contract(k, calls[0]).gas + ChildGas(env, k + 1, calls[1..])
  }

  /** Calls made before the next coin, if this one is called for its hook. */
  function Next(env: Env, k: nat, denom: Bytes): nat {
    if env.hook(k, denom) == [] then k else k + 1
  }

  /** Store gas of looking up the hooks of these coins, each after the calls for those before it. */
  function LookupGas(env: Env, k: nat, coins: seq<Coin>): nat
    decreases |coins|
  {
    if coins == [] then 0
    else Sum(env.readGas(k, coins[0].denom)) + LookupGas(env, Next(env, k, coins[0].denom), coins[1..])
  }

  /** The hooked coins among `coins`, with the hook each one had when its turn came. */
  function HookedCoins(env: Env, k: nat, coins: seq<Coin>): seq<(Bytes, Bytes)>
    decreases |coins|
  {
    if coins == [] then []
    else
      var hook := env.hook(k, coins[0].denom);
      if hook == [] then HookedCoins(env, k, coins[1..])
      else [(coins[0].denom, hook)] + HookedCoins(env, k + 1, coins[1..])
  }

  function Targets(calls: seq<Call>): (ts: seq<(Bytes, Bytes)>)
    ensures |ts| == |calls|
    decreases |calls|
  {
    if calls == [] then [] else [(calls[0].denom, calls[0].contract)] + Targets(calls[1..])
  }

  lemma OneChildGas(env: Env, k: nat, call: Call)
    ensures ChildGas(env, k, [call]) == env.contract(k, call).gas
    ensures ChildGas(env, k, []) == 0
  {
    assert [call][1..] == [];
    assert ChildGas(env, k + 1, []) == 0;
  }

  lemma ChildGasCons(env: Env, k: nat, call: Call, calls: seq<Call>)
    ensures ChildGas(env, k, [call] + calls) == env.contract(k, call).gas + ChildGas(env, k + 1, calls)
  {
    assert ([call] + calls)[1..] == calls;
  }

  lemma LookupCons(env: Env, k: nat, coins: seq<Coin>, n: nat)
    requires coins != [] && n < |coins|
    ensures LookupGas(env, k, coins[..n + 1]) ==
            Sum(env.readGas(k, coins[0].denom)) + LookupGas(env, Next(env, k, coins[0].denom), coins[1..][..n])
  {
    assert coins[..n + 1][1..] == coins[1..][..n];
  }

  /** What one turn asks of the meter, and whether it panics there. */
  lemma TurnCharges(env: Env, fromModule: bool, k: nat, denom: Bytes, m: Meter)
    ensures var t, sum := TurnOf(env, fromModule, k, denom, m), Sum(env.readGas(k, denom));
            && t.asked <= sum
            && (t.asked < sum ==> t.Stopped? && t.calls == [] && t.exit == Panicking)
            && (t.Stopped? ==> t.meter == m.Plus(t.asked + ChildGas(env, k, t.calls)))
            && (t.Stopped? && t.exit == Panicking ==> m.PanicsOn(t.asked + ChildGas(env, k, t.calls)))
            && (t.Stopped? && t.exit != Panicking && !m.PanicsOn(0) ==>
                 !m.PanicsOn(t.asked + ChildGas(env, k, t.calls)))
            && (t.Unhooked? ==> t.meter == m.Plus(sum) && (m.PanicsOn(0) || !m.PanicsOn(sum)))
            && (t.Called? ==> t.meter == m.Plus(sum + env.contract(k, t.call).gas))
            && (t.Called? ==> m.PanicsOn(0) || !m.PanicsOn(sum + env.contract(k, t.call).gas))
  {
    var charges := env.readGas(k, denom);
    AskedIsSum(m, charges);
    assert charges == [] ==> Sum(charges) == 0;
    var call := Call(denom, env.hook(k, denom),
                     Min(m.Plus(Sum(charges)).Remaining(), BEFORE_SEND_HOOK_GAS_LIMIT));
    OneChildGas(env, k, call);
    PlusTwice(m, Sum(charges), env.contract(k, call).gas);
    PanicsTwice(m, Sum(charges), env.contract(k, call).gas);
    PanicsAfter(m, Sum(charges), env.contract(k, call).gas);
    hide Meter.Plus, Meter.PanicsOn, Meter.Remaining, Min, Asked, ChargesPanic, Sum, ChildGas;
  }

  lemma PanicsAfter(m: Meter, a: nat, b: nat)
    ensures m.Plus(a).PanicsOn(b) ==> m.PanicsOn(a + b)
  {
  }

  /**
   * What the parent meter shows: the lookups and the calls of `h`, no more and no less, the
   * counter saturating at the largest uint64. Only a lookup that panicked was cut short, and the
   * loop was left by a panic exactly when the charges went over the top (a meter that starts
   * beyond its limit has nothing left to go over).
   */
  ghost predicate Charged(env: Env, k: nat, coins: seq<Coin>, m: Meter, h: Heard) {
    var total := h.asked + ChildGas(env, k, h.calls);
    && h.looked <= |coins|
    && h.meter == m.Plus(total)
    && h.asked <= LookupGas(env, k, coins[..h.looked])
    && (h.asked < LookupGas(env, k, coins[..h.looked]) ==> h.exit == Panicking)
    && (h.exit == Panicking ==> m.PanicsOn(total))
    && (h.exit != Panicking ==> m.PanicsOn(0) || !m.PanicsOn(total))
  }

  lemma PanicsLater(m: Meter, a: nat, x: nat)
    ensures m.PanicsOn(0) ==> m.PanicsOn(x)
    ensures !m.PanicsOn(a) ==> (m.Plus(a).PanicsOn(x) <==> m.PanicsOn(a + x))
    ensures !m.PanicsOn(a) ==> !m.Plus(a).PanicsOn(0)
  {
  }

  lemma ChargedUnhooked(env: Env, k: nat, coins: seq<Coin>, m: Meter, t: Heard)
    requires coins != [] && env.hook(k, coins[0].denom) == []
    requires var sum := Sum(env.readGas(k, coins[0].denom));
             (m.PanicsOn(0) || !m.PanicsOn(sum)) && Charged(env, k, coins[1..], m.Plus(sum), t)
    ensures Charged(env, k, coins, m, After([], 1, Sum(env.readGas(k, coins[0].denom)), t))
  {
    var sum, rest := Sum(env.readGas(k, coins[0].denom)), t.asked + ChildGas(env, k, t.calls);
    LookupCons(env, k, coins, t.looked);
    assert [] + t.calls == t.calls;
    PlusTwice(m, sum, rest);
    PanicsLater(m, sum, rest);
    PanicsLater(m, sum, sum + rest);
    hide LookupGas, ChildGas, Meter.Plus, Meter.PanicsOn, Sum;
  }

  lemma ChargedCalled(env: Env, k: nat, coins: seq<Coin>, m: Meter, call: Call, t: Heard)
    requires coins != [] && env.hook(k, coins[0].denom) != []
    requires var both := Sum(env.readGas(k, coins[0].denom)) + env.contract(k, call).gas;
             (m.PanicsOn(0) || !m.PanicsOn(both)) && Charged(env, k + 1, coins[1..], m.Plus(both), t)
    ensures Charged(env, k, coins, m, After([call], 1, Sum(env.readGas(k, coins[0].denom)), t))
  {
    var both, rest := Sum(env.readGas(k, coins[0].denom)) + env.contract(k, call).gas,
                      t.asked + ChildGas(env, k + 1, t.calls);
    LookupCons(env, k, coins, t.looked);
    ChildGasCons(env, k, call, t.calls);
    PlusTwice(m, both, rest);
    PanicsLater(m, both, rest);
    PanicsLater(m, both, both + rest);
    hide LookupGas, ChildGas, Meter.Plus, Meter.PanicsOn, Sum;
  }

  lemma LookupOne(env: Env, k: nat, coins: seq<Coin>)
    requires coins != []
    ensures LookupGas(env, k, coins[..1]) == Sum(env.readGas(k, coins[0].denom))
  {
    LookupCons(env, k, coins, 0);
    assert LookupGas(env, Next(env, k, coins[0].denom), coins[1..][..0]) == 0;
  }

  /** Whatever the contracts do and however the loop ends, the parent is charged exactly. */
  lemma {:induction false} GasIsChargedExactly(env: Env, fromModule: bool, k: nat, coins: seq<Coin>, m: Meter)
    ensures Charged(env, k, coins, m, Loop(env, fromModule, k, coins, m))
    decreases |coins|
  {
    hide TurnOf, Charged, Meter.PanicsOn, Meter.Plus;
    if coins == [] {
      ChargedNothing(env, k, m);
    } else {
      TurnCharges(env, fromModule, k, coins[0].denom, m);
      TurnTargets(env, fromModule, k, coins[0].denom, m);
      match TurnOf(env, fromModule, k, coins[0].denom, m)
      case Stopped(exit, meter, calls, asked) =>
        ChargedStopped(env, k, coins, m, Heard(exit, meter, calls, 1, asked));
      case Unhooked(meter, _) =>
        GasIsChargedExactly(env, fromModule, k, coins[1..], meter);
        ChargedUnhooked(env, k, coins, m, Loop(env, fromModule, k, coins[1..], meter));
      case Called(call, meter, _) =>
        GasIsChargedExactly(env, fromModule, k + 1, coins[1..], meter);
        ChargedCalled(env, k, coins, m, call, Loop(env, fromModule, k + 1, coins[1..], meter));
    }
  }

  lemma ChargedNothing(env: Env, k: nat, m: Meter)
    ensures Charged(env, k, [], m, Heard(Returned(Fine), m, [], 0, 0))
  {
    OneChildGas(env, k, Call([], [], 0));
  }

  lemma ChargedStopped(env: Env, k: nat, coins: seq<Coin>, m: Meter, h: Heard)
    requires coins != [] && h.looked == 1
    requires var sum, total := Sum(env.readGas(k, coins[0].denom)), h.asked + ChildGas(env, k, h.calls);
             && h.meter == m.Plus(total) && h.asked <= sum && (h.asked < sum ==> h.exit == Panicking)
             && (h.exit == Panicking ==> m.PanicsOn(total))
             && (h.exit != Panicking && !m.PanicsOn(0) ==> !m.PanicsOn(total))
    ensures Charged(env, k, coins, m, h)
  {
    LookupOne(env, k, coins);
    hide LookupGas, Sum, ChildGas, Meter.Plus, Meter.PanicsOn;
  }

  // ----- limits --------------------------------------------------------------------------------

  /**
   * Call `i` was made for coin `j`, under the fixed limit or all that the parent had left after
   * the lookups up to that coin and the calls before this one, whichever is less.
   */
  ghost predicate LimitedAt(env: Env, k: nat, coins: seq<Coin>, m: Meter, calls: seq<Call>, i: nat, j: nat)
    requires i < |calls|
  {
    && j < |coins| && coins[j].denom == calls[i].denom
    && calls[i].gasLimit ==
         Min(m.Plus(LookupGas(env, k, coins[..j + 1]) + ChildGas(env, k, calls[..i])).Remaining(),
             500_000)
  }

  lemma TurnLimits(env: Env, fromModule: bool, k: nat, denom: Bytes, m: Meter, call: Call)
    requires var t := TurnOf(env, fromModule, k, denom, m);
             (t.Called? && call == t.call) || (t.Stopped? && t.calls == [call])
    ensures call.denom == denom
    ensures call.gasLimit == Min(m.Plus(Sum(env.readGas(k, denom))).Remaining(), BEFORE_SEND_HOOK_GAS_LIMIT)
  {
    AskedIsSum(m, env.readGas(k, denom));
    hide Meter.Plus, Meter.PanicsOn, Meter.Remaining, Min, Asked, ChargesPanic, Sum;
  }

  lemma FirstLimit(env: Env, k: nat, coins: seq<Coin>, m: Meter, calls: seq<Call>)
    requires coins != [] && calls != [] && calls[0].denom == coins[0].denom
    requires calls[0].gasLimit ==
             Min(m.Plus(Sum(env.readGas(k, coins[0].denom))).Remaining(), BEFORE_SEND_HOOK_GAS_LIMIT)
    ensures LimitedAt(env, k, coins, m, calls, 0, 0)
  {
    LookupOne(env, k, coins);
    assert calls[..0] == [];
    OneChildGas(env, k, calls[0]);
    hide Meter.Plus, Meter.Remaining, Min, Sum, LookupGas;
  }

  lemma LaterLimitUnhooked(env: Env, k: nat, coins: seq<Coin>, m: Meter, calls: seq<Call>, i: nat, j: nat)
    requires coins != [] && env.hook(k, coins[0].denom) == [] && i < |calls|
    requires LimitedAt(env, k, coins[1..], m.Plus(Sum(env.readGas(k, coins[0].denom))), calls, i, j)
    ensures LimitedAt(env, k, coins, m, calls, i, j + 1)
  {
    LookupCons(env, k, coins, j + 1);
    PlusTwice(m, Sum(env.readGas(k, coins[0].denom)),
              LookupGas(env, k, coins[1..][..j + 1]) + ChildGas(env, k, calls[..i]));
    hide Meter.Plus, Meter.Remaining, Min, Sum, LookupGas, ChildGas;
  }

  lemma LaterLimitCalled(env: Env, k: nat, coins: seq<Coin>, m: Meter, call: Call, calls: seq<Call>, i: nat, j: nat)
    requires coins != [] && env.hook(k, coins[0].denom) != [] && i < |calls|
    requires LimitedAt(env, k + 1, coins[1..],
                       m.Plus(Sum(env.readGas(k, coins[0].denom)) + env.contract(k, call).gas), calls, i, j)
    ensures LimitedAt(env, k, coins, m, [call] + calls, i + 1, j + 1)
  {
    LookupCons(env, k, coins, j + 1);
    assert ([call] + calls)[..i + 1] == [call] + calls[..i];
    ChildGasCons(env, k, call, calls[..i]);
    PlusTwice(m, Sum(env.readGas(k, coins[0].denom)) + env.contract(k, call).gas,
              LookupGas(env, k + 1, coins[1..][..j + 1]) + ChildGas(env, k + 1, calls[..i]));
    hide Meter.Plus, Meter.Remaining, Min, Sum, LookupGas, ChildGas;
  }

  /** For every parent meter, limited or not, each call's limit is exactly that. */
  lemma {:induction false} LimitsAreExact(env: Env, fromModule: bool, k: nat, coins: seq<Coin>, m: Meter, i: nat)
    requires i < |Loop(env, fromModule, k, coins, m).calls|
    ensures exists j: nat :: LimitedAt(env, k, coins, m, Loop(env, fromModule, k, coins, m).calls, i, j)
    decreases |coins|
  {
    hide TurnOf, LimitedAt, Meter.Plus, Sum;
    var denom := coins[0].denom;
    var calls := Loop(env, fromModule, k, coins, m).calls;
    TurnCharges(env, fromModule, k, denom, m);
    TurnTargets(env, fromModule, k, denom, m);
    match TurnOf(env, fromModule, k, denom, m)
    case Stopped(_, _, last, _) =>
      assert last == [calls[0]] && i == 0;
      TurnLimits(env, fromModule, k, denom, m, calls[0]);
      FirstLimit(env, k, coins, m, calls);
    case Unhooked(meter, _) =>
      LimitsAreExact(env, fromModule, k, coins[1..], meter, i);
      var rest := Loop(env, fromModule, k, coins[1..], meter).calls;
      assert [] + rest == rest == calls;
      var j: nat :| LimitedAt(env, k, coins[1..], meter, rest, i, j);
      LaterLimitUnhooked(env, k, coins, m, rest, i, j);
    case Called(call, meter, _) =>
      TurnLimits(env, fromModule, k, denom, m, call);
      var rest := Loop(env, fromModule, k + 1, coins[1..], meter).calls;
      assert calls == [call] + rest;
      if i == 0 {
        FirstLimit(env, k, coins, m, calls);
      } else {
        LimitsAreExact(env, fromModule, k + 1, coins[1..], meter, i - 1);
        var j: nat :| LimitedAt(env, k + 1, coins[1..], meter, rest, i - 1, j);
        LaterLimitCalled(env, k, coins, m, call, rest, i - 1, j);
      }
  }

  /** What call `i` had to fit into, made for coin `j`. */
  ghost predicate BoundedAt(env: Env, k: nat, coins: seq<Coin>, m: Meter, calls: seq<Call>, i: nat, j: nat)
    requires i < |calls|
  {
    && j < |coins| && coins[j].denom == calls[i].denom
    && calls[i].gasLimit <= m.Plus(LookupGas(env, k, coins[..j + 1]) + ChildGas(env, k, calls[..i])).Remaining()
  }

  lemma LimitBounds(env: Env, k: nat, coins: seq<Coin>, m: Meter, calls: seq<Call>, i: nat, j: nat)
    requires i < |calls| && LimitedAt(env, k, coins, m, calls, i, j)
    ensures calls[i].gasLimit <= 500_000 && BoundedAt(env, k, coins, m, calls, i, j)
  {
    hide LookupGas, ChildGas, Meter.Plus, Meter.Remaining;
  }

  /**
   * The two bounds: at most 500,000 whatever the meter, and at most what the parent has left
   * after the lookup for this coin.
   */
  lemma LimitsAreKept(env: Env, fromModule: bool, k: nat, coins: seq<Coin>, m: Meter, i: nat)
    requires i < |Loop(env, fromModule, k, coins, m).calls|
    ensures var calls := Loop(env, fromModule, k, coins, m).calls;
            calls[i].gasLimit <= 500_000 && exists j: nat :: BoundedAt(env, k, coins, m, calls, i, j)
  {
    hide Loop, LimitedAt, BoundedAt;
    LimitsAreExact(env, fromModule, k, coins, m, i);
    var calls := Loop(env, fromModule, k, coins, m).calls;
    var j: nat :| LimitedAt(env, k, coins, m, calls, i, j);
    LimitBounds(env, k, coins, m, calls, i, j);
  }

  // ----- which contracts are called, and when the listener says nothing -----------------------------

  /** Every call returned normally. */
  predicate AllReturned(env: Env, k: nat, calls: seq<Call>)
    decreases |calls|
  {
    calls == [] || (env.contract(k, calls[0]).ending == Returns && AllReturned(env, k + 1, calls[1..]))
  }

  /** The coin has a hook that is no address. */
  predicate BadHookOf(env: Env, k: nat, denom: Bytes) {
    env.hook(k, denom) != [] && !env.bech.Parses(env.hook(k, denom))
  }

  /** Which coin a turn's call was for, and how it ended. */
  lemma TurnTargets(env: Env, fromModule: bool, k: nat, denom: Bytes, m: Meter)
    ensures var t, hook := TurnOf(env, fromModule, k, denom, m), env.hook(k, denom);
            && (t.Stopped? && t.calls == [] ==>
                 t.exit == Panicking || (t.exit == Returned(BadHook) && BadHookOf(env, k, denom)))
            && (t.Stopped? && t.calls != [] ==> env.bech.Parses(hook))
            && (t.Called? ==> env.bech.Parses(hook))
            && (t.Stopped? && t.calls != [] ==>
                 && |t.calls| == 1 && t.calls[0].denom == denom && t.calls[0].contract == hook != []
                 && var b := env.contract(k, t.calls[0]);
                 t.exit == Panicking || (b.ending != Returns &&
                   t.exit == Returned(if b.noSuchContract || fromModule then Fine else HookFailed)))
            && (t.Unhooked? ==> hook == [])
            && (t.Called? ==>
                 t.call.denom == denom && t.call.contract == hook != [] && env.contract(k, t.call).ending == Returns)
  {
    hide Meter.Plus, Meter.PanicsOn, Meter.Remaining, Asked, ChargesPanic;
  }

  lemma TargetsCons(call: Call, calls: seq<Call>)
    ensures Targets([call] + calls) == [(call.denom, call.contract)] + Targets(calls)
  {
    assert ([call] + calls)[1..] == calls;
  }

  lemma AllReturnedCons(env: Env, k: nat, call: Call, calls: seq<Call>)
    ensures AllReturned(env, k, [call] + calls) <==>
            env.contract(k, call).ending == Returns && AllReturned(env, k + 1, calls)
  {
    assert ([call] + calls)[1..] == calls;
  }

  lemma AllButLast(call: Call, calls: seq<Call>)
    requires calls != []
    ensures ([call] + calls)[..|calls|] == [call] + calls[..|calls| - 1]
  {
  }

  /** All coins were looked at, every hooked coin's contract was called, and all of them returned. */
  ghost predicate HeardAll(env: Env, k: nat, coins: seq<Coin>, h: Heard) {
    h.looked == |coins| && Targets(h.calls) == HookedCoins(env, k, coins) && AllReturned(env, k, h.calls)
  }

  /**
   * The last call failed, and in a way the listener keeps quiet about: its error mentions "no
   * such contract", or the sender is a module account.
   */
  ghost predicate QuietFailure(env: Env, fromModule: bool, k: nat, calls: seq<Call>) {
    && calls != []
    && var b := env.contract(k + |calls| - 1, calls[|calls| - 1]);
    b.ending != Returns && (b.noSuchContract || fromModule)
  }

  /** The last call failed, and in a way the sender is told about. */
  ghost predicate LoudFailure(env: Env, fromModule: bool, k: nat, calls: seq<Call>) {
    && calls != []
    && var b := env.contract(k + |calls| - 1, calls[|calls| - 1]);
    b.ending != Returns && !b.noSuchContract && !fromModule
  }

  /** Every contract called is an address, and the next hook in turn is none. */
  ghost predicate StoppedAtBadHook(env: Env, k: nat, coins: seq<Coin>, calls: seq<Call>) {
    var hooked := HookedCoins(env, k, coins);
    AllReturned(env, k, calls) && |calls| < |hooked| && !env.bech.Parses(hooked[|calls|].1)
  }

  /**
   * The calls are a prefix of the hooked coins and every call but the last returned; the loop
   * returns without error exactly if no charge panicked and either everything was heard or the
   * last call failed quietly, and the two errors it returns have their one cause each.
   */
  ghost predicate Follows(env: Env, fromModule: bool, k: nat, coins: seq<Coin>, h: Heard) {
    && Targets(h.calls) <= HookedCoins(env, k, coins)
    && (h.calls != [] ==> AllReturned(env, k, h.calls[..|h.calls| - 1]))
    && (forall i :: 0 <= i < |h.calls| ==> env.bech.Parses(h.calls[i].contract))
    && (h.exit == Returned(Fine) <==>
         h.exit != Panicking && (HeardAll(env, k, coins, h) || QuietFailure(env, fromModule, k, h.calls)))
    && (h.exit == Returned(HookFailed) <==> h.exit != Panicking && LoudFailure(env, fromModule, k, h.calls))
    && (h.exit == Returned(BadHook) <==> h.exit != Panicking && StoppedAtBadHook(env, k, coins, h.calls))
  }

  lemma FollowsCalled(env: Env, fromModule: bool, k: nat, coins: seq<Coin>, call: Call, asked: nat, t: Heard)
    requires coins != [] && call.contract == env.hook(k, coins[0].denom) != [] && call.denom == coins[0].denom
    requires env.bech.Parses(call.contract)
    requires env.contract(k, call).ending == Returns
    requires Follows(env, fromModule, k + 1, coins[1..], t)
    ensures Follows(env, fromModule, k, coins, After([call], 1, asked, t))
  {
    TargetsCons(call, t.calls);
    AllReturnedCons(env, k, call, t.calls);
    if t.calls != [] {
      AllButLast(call, t.calls);
      AllReturnedCons(env, k, call, t.calls[..|t.calls| - 1]);
    }
    assert HookedCoins(env, k, coins) == [(call.denom, call.contract)] + HookedCoins(env, k + 1, coins[1..]);
    hide HookedCoins, Targets, AllReturned;
  }

  lemma FollowsStopped(env: Env, fromModule: bool, k: nat, coins: seq<Coin>, h: Heard)
    requires coins != [] && h.looked == 1 && |h.calls| <= 1
    requires h.calls == [] ==>
               h.exit == Panicking || (h.exit == Returned(BadHook) && BadHookOf(env, k, coins[0].denom))
    requires h.calls != [] ==>
               && env.bech.Parses(h.calls[0].contract)
               && h.calls[0].denom == coins[0].denom && h.calls[0].contract == env.hook(k, coins[0].denom) != []
               && var b := env.contract(k, h.calls[0]);
               h.exit == Panicking || (b.ending != Returns &&
                 h.exit == Returned(if b.noSuchContract || fromModule then Fine else HookFailed))
    ensures Follows(env, fromModule, k, coins, h)
  {
    if h.calls != [] {
      TargetsCons(h.calls[0], []);
      assert [h.calls[0]] + [] == h.calls;
    }
  }

  lemma FollowsNothing(env: Env, fromModule: bool, k: nat, m: Meter)
    ensures Follows(env, fromModule, k, [], Heard(Returned(Fine), m, [], 0, 0))
  {
  }

  lemma FollowsUnhooked(env: Env, fromModule: bool, k: nat, coins: seq<Coin>, asked: nat, t: Heard)
    requires coins != [] && env.hook(k, coins[0].denom) == []
    requires Follows(env, fromModule, k, coins[1..], t)
    ensures Follows(env, fromModule, k, coins, After([], 1, asked, t))
  {
    assert [] + t.calls == t.calls;
    assert HookedCoins(env, k, coins) == HookedCoins(env, k, coins[1..]);
    hide HookedCoins, Targets, AllReturned;
  }

  /**
   * Contracts are called once per hooked coin, in the order of the coins, up to the first
   * failure; and the listener reports no error exactly when it heard all of them or stopped at a
   * failure it keeps quiet about.
   */
  lemma {:induction false} CallsFollowTheCoins(env: Env, fromModule: bool, k: nat, coins: seq<Coin>, m: Meter)
    ensures Follows(env, fromModule, k, coins, Loop(env, fromModule, k, coins, m))
    decreases |coins|
  {
    hide TurnOf, Follows;
    if coins == [] {
      FollowsNothing(env, fromModule, k, m);
    } else {
      TurnTargets(env, fromModule, k, coins[0].denom, m);
      match TurnOf(env, fromModule, k, coins[0].denom, m)
      case Stopped(exit, meter, calls, asked) =>
        FollowsStopped(env, fromModule, k, coins, Heard(exit, meter, calls, 1, asked));
      case Unhooked(meter, asked) =>
        CallsFollowTheCoins(env, fromModule, k, coins[1..], meter);
        FollowsUnhooked(env, fromModule, k, coins, asked, Loop(env, fromModule, k, coins[1..], meter));
      case Called(call, meter, asked) =>
        CallsFollowTheCoins(env, fromModule, k + 1, coins[1..], meter);
        FollowsCalled(env, fromModule, k, coins, call, asked, Loop(env, fromModule, k + 1, coins[1..], meter));
    }
  }

  /**
   * What the listener returns, exactly: out of gas if and only if the charges go over the top,
   * and otherwise no error if and only if everything was heard or the last call failed quietly.
   */
  lemma ListenerVerdict(env: Env, fromModule: bool, coins: seq<Coin>, m: Meter)
    ensures var h := Listen(env, fromModule, coins, m);
            && (!m.PanicsOn(0) ==> (h.exit == Returned(OutOfGas) <==> m.PanicsOn(h.asked + ChildGas(env, 0, h.calls))))
            && (h.exit == Returned(Fine) <==>
                 && h.exit != Returned(OutOfGas)
                 && (HeardAll(env, 0, coins, h) || QuietFailure(env, fromModule, 0, h.calls)))
            && (h.exit == Returned(HookFailed) <==>
                 h.exit != Returned(OutOfGas) && LoudFailure(env, fromModule, 0, h.calls))
            && (h.exit == Returned(BadHook) <==>
                 h.exit != Returned(OutOfGas) && StoppedAtBadHook(env, 0, coins, h.calls))
  {
    GasIsChargedExactly(env, fromModule, 0, coins, m);
    CallsFollowTheCoins(env, fromModule, 0, coins, m);
    LoopNeverRunsOut(env, fromModule, 0, coins, m);
    hide Loop, ChildGas, LookupGas, HookedCoins, Targets, AllReturned, Meter.PanicsOn, Meter.Plus;
  }

  /** Running out of gas leaves the loop as a panic, never as a returned error. */
  lemma {:induction false} LoopNeverRunsOut(env: Env, fromModule: bool, k: nat, coins: seq<Coin>, m: Meter)
    ensures Loop(env, fromModule, k, coins, m).exit != Returned(OutOfGas)
    decreases |coins|
  {
    if coins != [] {
      TurnTargets(env, fromModule, k, coins[0].denom, m);
      hide TurnOf;
      match TurnOf(env, fromModule, k, coins[0].denom, m)
      case Stopped(_, _, _, _) =>
      case Unhooked(meter, _) => LoopNeverRunsOut(env, fromModule, k, coins[1..], meter);
      case Called(_, meter, _) => LoopNeverRunsOut(env, fromModule, k + 1, coins[1..], meter);
    }
  }

  /**
   * "No error means every hooked coin's contract was called and returned" fails: two hooked
   * coins, the first contract fails, the second is never called, and the listener reports
   * nothing. It happens to module accounts on any error, and to every sender when the error
   * mentions "no such contract".
   */
  lemma LaterHooksMayStayUncalled(fromModule: bool)
    ensures exists env: Env, coins: seq<Coin>, m: Meter ::
              var h := Listen(env, fromModule, coins, m);
              && env.bech.Lawful() && m.limit == None && h.exit == Returned(Fine)
              && |h.calls| == 1 && |HookedCoins(env, 0, coins)| == 2
  {
    var env := Env(
      Bech32(s => if s == [0x61] then Some(s) else None, a => a), (_, _) => [0x61], (_, _) => [],
      (_, _) => Behaviour(Errs, 0, !fromModule));
    var coins := [Coin([0x61], 1), Coin([0x62], 1)];
    var m := Meter(None, 0);
    var call := Call([0x61], [0x61], BEFORE_SEND_HOOK_GAS_LIMIT);
    assert TurnOf(env, fromModule, 0, [0x61], m) == Stopped(Returned(Fine), m, [call], 0);
    var h := Listen(env, fromModule, coins, m);
    assert h == Heard(Returned(Fine), m, [call], 1, 0);
    assert HookedCoins(env, 1, coins[1..]) == [([0x62], [0x61])] + HookedCoins(env, 2, coins[1..][1..]);
    assert |HookedCoins(env, 0, coins)| == 2;
  }
}
