/** One-time codes of one purpose and address, on a clock of whole seconds. */
module AuthCodes {
  import opened Common

  /** The stored code (its digest stands for it), the wrong guesses so far, and its expiry. */
  datatype Code = Code(text: string, attempts: nat, expiry: int)

  /** The cooldown key's expiry and the code key. */
  datatype Slot = Slot(cooldown: Option<int>, code: Option<Code>)

  const NO_CODE := Slot(None, None)

  const COOLDOWN: nat := 60

  /** Which calls of `_send_code` go through: taking the cooldown, and what follows. Others raise. */
  datatype Calls = Calls(take: bool, store: bool, publish: bool, cleanup: bool)

  datatype SendEnd = Published | TooSoon | Failed

  predicate CoolingDown(s: Slot, now: int) {
    s.cooldown.Some? && now < s.cooldown.value
  }

  function LiveCode(s: Slot, now: int): Option<Code> {
    if s.code.Some? && now < s.code.value.expiry then s.code else None
  }

  function Send(s: Slot, now: int, code: string, lifetime: nat, up: Calls): (Slot, SendEnd) {
    if !up.take then (s, Failed)
    else if CoolingDown(s, now) then (s, TooSoon)
    else
      var cooling := s.(cooldown := Some(now + COOLDOWN));
      var stored := if up.store then cooling.(code := Some(Code(code, 0, now + lifetime))) else cooling;
      if up.store && up.publish then (stored, Published)
      else if up.cleanup then (NO_CODE, Failed)
      else (stored, Failed)
  }

  function Max(a: int, b: int): int { if a < b then b else a }

  const MAX_ATTEMPTS: nat := 4

  /** `Broken`: a call raised, and the guess got no answer. */
  datatype Guess = NoLiveCode | Exhausted | Wrong | Right | Broken

  function Consume(s: Slot, now: int, guess: string): (Slot, Guess) {
    match LiveCode(s, now)
    case None => (s, NoLiveCode)
    case Some(c) =>
      if c.attempts >= MAX_ATTEMPTS then (s.(code := None), Exhausted)
      else if c.text != guess then
        (s.(code := Some(Code(c.text, c.attempts + 1, now + Max(c.expiry - now, 1)))), Wrong)
      else (s.(code := None), Right)
  }

  /** The Redis calls of a guess: each writes at most once, with its last call. */
  function CallsOf(g: Guess): nat {
    match g
    case NoLiveCode => 1
    case Exhausted => 2
    case Wrong => 3
    case Right => 2
    case Broken => 0
  }

  /** A guess with `budget` calls going through; the next one raises. */
  function Try(s: Slot, now: int, guess: string, budget: nat): (Slot, Guess) {
    var (s', g) := Consume(s, now, guess);
    if budget < CallsOf(g) then (s, Broken) else (s', g)
  }

  // ---------------------------------------------------------------- timelines of calls

  datatype Op =
    | SendOp(at: int, code: string, lifetime: nat, up: Calls)
    | GuessOp(at: int, guess: string, budget: nat)

  function Step(s: Slot, op: Op): Slot {
    match op
    case SendOp(at, code, lifetime, up) => Send(s, at, code, lifetime, up).0
    case GuessOp(at, guess, budget) => Try(s, at, guess, budget).0
  }

  function Exec(s: Slot, ops: seq<Op>): Slot
    decreases |ops|
  {
    if ops == [] then s else Exec(Step(s, ops[0]), ops[1..])
  }

  predicate Ordered(ops: seq<Op>) {
    forall i, j | 0 <= i < j < |ops| :: ops[i].at <= ops[j].at
  }

  /** The call compares the guess with the stored code and answers. */
  predicate Compares(s: Slot, op: Op) {
    op.GuessOp? && Try(s, op.at, op.guess, op.budget).1 in {Wrong, Right}
  }

  /** The call compares the guess with the stored code, but raises before it has recorded that. */
  predicate BreaksOff(s: Slot, op: Op) {
    op.GuessOp? && 0 < op.budget && Consume(s, op.at, op.guess).1 in {Wrong, Right} &&
    Try(s, op.at, op.guess, op.budget).1.Broken?
  }

  predicate Publishes(s: Slot, op: Op) {
    op.SendOp? && Send(s, op.at, op.code, op.lifetime, op.up).1.Published?
  }

  /** The call leaves a new code behind: one that was published, or could not be cleaned up. */
  predicate Starts(s: Slot, op: Op) {
    op.SendOp? && op.up.take && !CoolingDown(s, op.at) && op.up.store && (op.up.publish || !op.up.cleanup)
  }

  /** How many calls in [from, to) compare a guess and answer. */
  function Comparisons(s: Slot, ops: seq<Op>, from: int, to: int): nat
    decreases |ops|
  {
    if ops == [] then 0
    else
      (if from <= ops[0].at < to && Compares(s, ops[0]) then 1 else 0)
      + Comparisons(Step(s, ops[0]), ops[1..], from, to)
  }

  /** How many calls in [from, to) compare a guess and break off. */
  function Unanswered(s: Slot, ops: seq<Op>, from: int, to: int): nat
    decreases |ops|
  {
    if ops == [] then 0
    else
      (if from <= ops[0].at < to && BreaksOff(s, ops[0]) then 1 else 0)
      + Unanswered(Step(s, ops[0]), ops[1..], from, to)
  }

  /** Guesses that the code, if there is one, still allows. */
  function Left(s: Slot): nat {
    if s.code.Some? && s.code.value.attempts < MAX_ATTEMPTS then MAX_ATTEMPTS - s.code.value.attempts
    else 0
  }

  // ---------------------------------------------------------------- one code

  predicate OnlyGuesses(ops: seq<Op>) {
    forall i | 0 <= i < |ops| :: ops[i].GuessOp?
  }

  function Successes(s: Slot, ops: seq<Op>): nat
    requires OnlyGuesses(ops)
    decreases |ops|
  {
    if ops == [] then 0
    else
      (if Try(s, ops[0].at, ops[0].guess, ops[0].budget).1.Right? then 1 else 0)
      + Successes(Step(s, ops[0]), ops[1..])
  }

  /**
    Until another code is sent, a code is compared no more often than it has guesses left, which is
    four for a new one, and succeeds at most once; its text and expiry do not change as long as it
    stands, and it is gone once it succeeded.
   */
  lemma {:induction false} OneCode(s: Slot, ops: seq<Op>, from: int, to: int)
    requires OnlyGuesses(ops)
    ensures Comparisons(s, ops, from, to) <= Left(s)
    ensures Successes(s, ops) <= 1
    ensures Exec(s, ops).cooldown == s.cooldown
    ensures Exec(s, ops).code.Some? ==>
              && s.code.Some? && Successes(s, ops) == 0
              && Exec(s, ops).code.value.text == s.code.value.text
              && Exec(s, ops).code.value.expiry == s.code.value.expiry
    ensures s.code.None? ==> Successes(s, ops) == 0
    decreases |ops|
  {
    if ops != [] {
      assert forall i | 0 <= i < |ops| - 1 :: ops[1..][i] == ops[i + 1];
      OneCode(Step(s, ops[0]), ops[1..], from, to);
    }
  }

  // ---------------------------------------------------------------- what a code opens

  /** The slot holds this code, not yet expired, with this many wrong guesses. */
  predicate Holding(s: Slot, now: int, text: string, attempts: nat) {
    s.code.Some? && now < s.code.value.expiry && s.code.value.text == text && s.code.value.attempts == attempts
  }

  /** The guess is the code, a guess is left, and the two calls it takes go through. */
  predicate Opens(s: Slot, now: int, guess: string, budget: nat) {
    && s.code.Some? && now < s.code.value.expiry
    && s.code.value.text == guess && s.code.value.attempts < MAX_ATTEMPTS && budget >= 2
  }

  /** A wrong guess that is answered: it costs one attempt and nothing else. */
  predicate Misses(s: Slot, now: int, guess: string, budget: nat) {
    && s.code.Some? && now < s.code.value.expiry
    && s.code.value.text != guess && s.code.value.attempts < MAX_ATTEMPTS && budget >= 3
  }

  lemma GuessIsJudged(s: Slot, now: int, guess: string, budget: nat)
    ensures var (s', g) := Try(s, now, guess, budget);
            && (g.Right? <==> Opens(s, now, guess, budget))
            && (g.Right? ==> s' == Slot(s.cooldown, None))
            && (g.Wrong? <==> Misses(s, now, guess, budget))
            && (g.Wrong? ==>
                  var c := s.code.value;
                  s' == Slot(s.cooldown, Some(Code(c.text, c.attempts + 1, c.expiry))))
            && (g.Exhausted? ==> s' == Slot(s.cooldown, None) && s.code.value.attempts >= MAX_ATTEMPTS)
            && (g.NoLiveCode? || g.Broken? ==> s' == s)
            && (g.Broken? <==> budget < if s.code.None? || s.code.value.expiry <= now then 1
                                        else if s.code.value.attempts < MAX_ATTEMPTS && s.code.value.text != guess
                                        then 3 else 2)
  {
    if s.code.Some? && now < s.code.value.expiry {
      assert now + Max(s.code.value.expiry - now, 1) == s.code.value.expiry;
    }
  }

  /** Wrong guesses at the code that are answered if it still stands. */
  function Misfires(ops: seq<Op>, text: string, expiry: int): nat {
    if ops == [] then 0
    else
      var op := ops[0];
      (if op.GuessOp? && op.at < expiry && op.guess != text && op.budget >= 3 then 1 else 0)
      + Misfires(ops[1..], text, expiry)
  }

  /** The code was guessed before, with the calls that takes. */
  predicate Guessed(ops: seq<Op>, text: string, expiry: int) {
    exists i | 0 <= i < |ops| ::
      ops[i].GuessOp? && ops[i].at < expiry && ops[i].guess == text && ops[i].budget >= 2
  }

  /**
    After any guesses, the code opens exactly if it has not expired, was not guessed before, and fewer
    than four wrong guesses were answered.
   */
  lemma {:induction false} CodeOpensIff(s: Slot, ops: seq<Op>, at: int, budget: nat)
    requires OnlyGuesses(ops) && s.code.Some? && s.code.value.attempts <= MAX_ATTEMPTS
    ensures var c := s.code.value;
            Try(Exec(s, ops), at, c.text, budget).1.Right? <==>
            && at < c.expiry && budget >= 2 && !Guessed(ops, c.text, c.expiry)
            && c.attempts + Misfires(ops, c.text, c.expiry) < MAX_ATTEMPTS
    decreases |ops|
  {
    var c := s.code.value;
    GuessIsJudged(Exec(s, ops), at, c.text, budget);
    if ops != [] {
      var op := ops[0];
      var rest := ops[1..];
      assert forall i | 0 <= i < |rest| :: rest[i] == ops[i + 1];
      GuessIsJudged(s, op.at, op.guess, op.budget);
      if Step(s, op).code.Some? {
        CodeOpensIff(Step(s, op), rest, at, budget);
        GuessedSplits(ops, c.text, c.expiry);
      } else {
        GoneStaysGone(Step(s, op), rest);
        GuessIsJudged(Exec(Step(s, op), rest), at, c.text, budget);
        GuessedSplits(ops, c.text, c.expiry);
      }
    }
  }

  lemma GuessedSplits(ops: seq<Op>, text: string, expiry: int)
    requires ops != []
    ensures Guessed(ops, text, expiry) <==>
            || (ops[0].GuessOp? && ops[0].at < expiry && ops[0].guess == text && ops[0].budget >= 2)
            || Guessed(ops[1..], text, expiry)
  {
    assert forall i | 0 <= i < |ops| - 1 :: ops[1..][i] == ops[i + 1];
    if i :| 0 < i < |ops| && ops[i].GuessOp? && ops[i].at < expiry && ops[i].guess == text && ops[i].budget >= 2 {
      assert ops[1..][i - 1] == ops[i];
    }
  }

  lemma {:induction false} GoneStaysGone(s: Slot, ops: seq<Op>)
    requires OnlyGuesses(ops) && s.code.None?
    ensures Exec(s, ops) == s
    decreases |ops|
  {
    if ops != [] {
      assert forall i | 0 <= i < |ops| - 1 :: ops[1..][i] == ops[i + 1];
      GoneStaysGone(Step(s, ops[0]), ops[1..]);
    }
  }

  /** The sending's outcome, by which of its calls go through. */
  lemma SendIsJudged(s: Slot, now: int, code: string, lifetime: nat, up: Calls)
    ensures var (s', end) := Send(s, now, code, lifetime, up);
            var waiting := s.cooldown.Some? && now < s.cooldown.value;
            && (end.TooSoon? <==> up.take && waiting)
            && (end.Published? <==> up.take && !waiting && up.store && up.publish)
            && (end.TooSoon? || !up.take ==> s' == s)
            && (end.Published? ==> s' == Slot(Some(now + COOLDOWN), Some(Code(code, 0, now + lifetime))))
            && (end.Failed? && up.take && up.cleanup ==> s' == Slot(None, None))
            && (end.Failed? && up.take && !up.cleanup ==>
                  && s'.cooldown == Some(now + COOLDOWN)
                  && s'.code == if up.store then Some(Code(code, 0, now + lifetime)) else s.code)
  {}

  /** A code that was published opens: at once, and after any three answered wrong guesses until it expires. */
  lemma PublishedCodeOpens(
    s: Slot, now: int, code: string, lifetime: nat, up: Calls, ops: seq<Op>, at: int, budget: nat)
    requires Send(s, now, code, lifetime, up).1.Published? && OnlyGuesses(ops)
    ensures Try(Exec(Send(s, now, code, lifetime, up).0, ops), at, code, budget).1.Right? <==>
            && at < now + lifetime && budget >= 2 && !Guessed(ops, code, now + lifetime)
            && Misfires(ops, code, now + lifetime) < MAX_ATTEMPTS
  {
    SendIsJudged(s, now, code, lifetime, up);
    CodeOpensIff(Send(s, now, code, lifetime, up).0, ops, at, budget);
  }

  /** A failed publication that was cleaned up can be repeated at once. */
  lemma FailedSendCanBeRepeated(s: Slot, now: int, code: string, lifetime: nat, up: Calls, code': string)
    requires Send(s, now, code, lifetime, up).1.Failed? && up.take && up.cleanup
    ensures Send(Send(s, now, code, lifetime, up).0, now, code', lifetime, ALL_UP).1.Published?
  {
    SendIsJudged(s, now, code, lifetime, up);
    SendIsJudged(Send(s, now, code, lifetime, up).0, now, code', lifetime, ALL_UP);
  }

  // ---------------------------------------------------------------- codes over time

  /** No code can be published before the cooldown is over, whatever happens in between. */
  lemma {:induction false} CooldownHolds(s: Slot, ops: seq<Op>, i: nat)
    requires Ordered(ops) && i < |ops| && s.cooldown.Some?
    requires Publishes(Exec(s, ops[..i]), ops[i])
    ensures s.cooldown.value <= ops[i].at
    decreases i
  {
    if i > 0 && ops[i].at < s.cooldown.value {
      var rest := ops[1..];
      assert ops[..i][1..] == rest[..i - 1] && rest[i - 1] == ops[i];
      assert ops[0].at <= ops[i].at;
      CooldownHolds(Step(s, ops[0]), rest, i - 1);
    }
  }

  lemma {:induction false} ExecConcat(s: Slot, a: seq<Op>, b: seq<Op>)
    ensures Exec(s, a + b) == Exec(Exec(s, a), b)
    decreases |a|
  {
    if a == [] {
      assert a + b == b;
    } else {
      assert (a + b)[0] == a[0] && (a + b)[1..] == a[1..] + b;
      ExecConcat(Step(s, a[0]), a[1..], b);
    }
  }

  /** In every timeline two published codes are at least a cooldown apart. */
  lemma PublishedApart(ops: seq<Op>, i: nat, j: nat)
    requires Ordered(ops) && i < j < |ops|
    requires Publishes(Exec(NO_CODE, ops[..i]), ops[i]) && Publishes(Exec(NO_CODE, ops[..j]), ops[j])
    ensures ops[i].at + COOLDOWN <= ops[j].at
  {
    var s := Exec(NO_CODE, ops[..i + 1]);
    var rest := ops[i + 1..];
    assert ops[..i + 1] == ops[..i] + [ops[i]];
    ExecConcat(NO_CODE, ops[..i], [ops[i]]);
    assert Exec(Exec(NO_CODE, ops[..i]), [ops[i]]) == Step(Exec(NO_CODE, ops[..i]), ops[i]);
    assert ops[..j] == ops[..i + 1] + rest[..j - i - 1] && rest[j - i - 1] == ops[j];
    ExecConcat(NO_CODE, ops[..i + 1], rest[..j - i - 1]);
    CooldownHolds(s, rest, j - i - 1);
  }

  // ---------------------------------------------------------------- guesses over time

  /** The cooldown key can vanish only when it is over: the wait then lies behind. */
  predicate Waited(s: Slot, t: int, codes: nat, from: int) {
    codes >= 1 ==> from + COOLDOWN * codes <= t || (s.cooldown.Some? && from + COOLDOWN * codes <= s.cooldown.value)
  }

  /**
    What is known on reaching a call at time `t`: `done` comparisons and `codes` new codes were
    counted in [from, to), and the next new code has to wait for the cooldown of the last.
   */
  predicate Counted(s: Slot, t: int, done: nat, codes: nat, from: int, to: int) {
    && (t < from ==> done == 0 && codes == 0)
    && (if t < to then done + Left(s) else done) <= MAX_ATTEMPTS * (1 + codes)
    && Waited(s, t, codes, from)
    && (codes >= 1 ==> COOLDOWN * (codes - 1) < to - from)
  }

  lemma {:induction false} CountGuesses(
    s: Slot, ops: seq<Op>, t: int, done: nat, codes: nat, from: int, to: int)
    returns (n: nat)
    requires Ordered(ops) && (ops != [] ==> t <= ops[0].at)
    requires from <= to && Counted(s, t, done, codes, from, to)
    ensures n >= 1 ==> COOLDOWN * (n - 1) < to - from
    ensures done + Comparisons(s, ops, from, to) <= MAX_ATTEMPTS * (1 + n)
    decreases |ops|
  {
    if ops == [] {
      n := codes;
    } else {
      var op := ops[0];
      var counts := from <= op.at < to;
      var done' := if counts && Compares(s, op) then done + 1 else done;
      var codes' := if counts && Starts(s, op) then codes + 1 else codes;
      n := CountGuesses(Step(s, op), ops[1..], op.at, done', codes', from, to);
    }
  }

  function CeilDiv(a: nat, b: nat): nat
    requires b > 0
  {
    (a + b - 1) / b
  }

  /**
    With calls one after the other, an address sees at most four answered comparisons for each
    cooldown begun in an interval, and four more for a code left from before.
   */
  lemma GuessesAreBounded(ops: seq<Op>, from: int, length: nat)
    requires Ordered(ops)
    ensures Comparisons(NO_CODE, ops, from, from + length) <= MAX_ATTEMPTS * (CeilDiv(length, COOLDOWN) + 1)
  {
    var t := if ops == [] then from else ops[0].at;
    var n := CountGuesses(NO_CODE, ops, t, 0, 0, from, from + length);
    assert n <= CeilDiv(length, COOLDOWN);
  }

  /** Every guess of the timeline runs with one of these numbers of calls going through. */
  ghost predicate Budgeted(ops: seq<Op>, allowed: iset<nat>) {
    forall i | 0 <= i < |ops| && ops[i].GuessOp? :: ops[i].budget in allowed
  }

  /** The bound holds for all comparisons, answered or not, of every timeline. */
  ghost predicate AllBounded(allowed: iset<nat>) {
    forall ops, from, to | Ordered(ops) && Budgeted(ops, allowed) && from <= to ::
      Comparisons(NO_CODE, ops, from, to) + Unanswered(NO_CODE, ops, from, to)
      <= MAX_ATTEMPTS * (CeilDiv(to - from, COOLDOWN) + 1)
  }

  /**
    A guess that was read and compared but could not be recorded is not counted: the bound holds for
    all comparisons exactly when no guess may end after its first or second call.
   */
  lemma AllGuessesAreBoundedIff(allowed: iset<nat>)
    ensures AllBounded(allowed) <==> 1 !in allowed && 2 !in allowed
  {
    if 1 !in allowed && 2 !in allowed {
      forall ops, from, to | Ordered(ops) && Budgeted(ops, allowed) && from <= to
        ensures Comparisons(NO_CODE, ops, from, to) + Unanswered(NO_CODE, ops, from, to)
                <= MAX_ATTEMPTS * (CeilDiv(to - from, COOLDOWN) + 1)
      {
        GuessesAreBounded(ops, from, to - from);
        NoneBreakOff(NO_CODE, ops, allowed, from, to);
      }
    } else {
      var ops := UnansweredAreUnbounded(9, if 1 in allowed then 1 else 2);
      assert Budgeted(ops, allowed);
      assert Comparisons(NO_CODE, ops, 0, 1) + Unanswered(NO_CODE, ops, 0, 1)
             > MAX_ATTEMPTS * (CeilDiv(1, COOLDOWN) + 1);
    }
  }

  lemma {:induction false} NoneBreakOff(s: Slot, ops: seq<Op>, allowed: iset<nat>, from: int, to: int)
    requires Budgeted(ops, allowed) && 1 !in allowed && 2 !in allowed
    ensures Unanswered(s, ops, from, to) == 0
    decreases |ops|
  {
    if ops != [] {
      assert forall i | 0 <= i < |ops| - 1 :: ops[1..][i] == ops[i + 1];
      NoneBreakOff(Step(s, ops[0]), ops[1..], allowed, from, to);
    }
  }

  /** Any number of guesses that end after one or two calls is compared and not recorded within a second. */
  lemma UnansweredAreUnbounded(n: nat, budget: nat) returns (ops: seq<Op>)
    requires 1 <= budget <= 2
    ensures Ordered(ops) && |ops| == n + 1 && Unanswered(NO_CODE, ops, 0, 1) == n
    ensures forall i | 0 <= i < |ops| && ops[i].GuessOp? :: ops[i].budget == budget
  {
    var send := SendOp(0, "right", TEN_MINUTES, ALL_UP);
    var guesses := seq(n, _ => GuessOp(0, "wrong", budget));
    ops := [send] + guesses;
    GuessesBreakOff(Step(NO_CODE, send), n, budget);
    assert ops[1..] == guesses && !BreaksOff(NO_CODE, send);
  }

  lemma {:induction false} GuessesBreakOff(s: Slot, n: nat, budget: nat)
    requires s == Slot(Some(COOLDOWN), Some(Code("right", 0, TEN_MINUTES))) && 1 <= budget <= 2
    ensures Unanswered(s, seq(n, _ => GuessOp(0, "wrong", budget)), 0, 1) == n
  {
    if n > 0 {
      GuessesBreakOff(s, n - 1, budget);
      assert seq(n, _ => GuessOp(0, "wrong", budget))[1..] == seq(n - 1, _ => GuessOp(0, "wrong", budget));
    }
  }

  // ---------------------------------------------------------------- the bound is reached

  const TEN_MINUTES: nat := 600

  const ALL_UP := Calls(true, true, true, true)

  /** Four wrong guesses, and at once the next code. */
  function Round(i: nat): seq<Op> {
    var wrong := GuessOp(COOLDOWN * i, "wrong", 3);
    [wrong, wrong, wrong, wrong, SendOp(COOLDOWN * i, "right", TEN_MINUTES, ALL_UP)]
  }

  /** Rounds `i` to `k` and four more guesses at the last code. */
  function Siege(i: nat, k: nat): seq<Op>
    requires i <= k + 1
    decreases k + 1 - i
  {
    var wrong := GuessOp(COOLDOWN * k, "wrong", 3);
    if i == k + 1 then [wrong, wrong, wrong, wrong] else Round(i) + Siege(i + 1, k)
  }

  /** The slot when the code sent in round `i - 1` waits for round `i`. */
  function Awaiting(i: nat): Slot {
    Slot(Some(COOLDOWN * i), Some(Code("right", 0, COOLDOWN * i - COOLDOWN + TEN_MINUTES)))
  }

  lemma ComparisonsOfFour(s: Slot, at: int, rest: seq<Op>, from: int, to: int)
    requires from <= at < to
    requires s.code.Some? && s.code.value.attempts == 0 && s.code.value.text != "wrong"
    requires at < s.code.value.expiry
    ensures var wrong := GuessOp(at, "wrong", 3);
            Comparisons(s, [wrong, wrong, wrong, wrong] + rest, from, to) ==
            4 + Comparisons(s.(code := Some(s.code.value.(attempts := 4))), rest, from, to)
  {
    var wrong := GuessOp(at, "wrong", 3);
    assert [wrong, wrong, wrong, wrong] + rest == [wrong] + ([wrong] + ([wrong] + ([wrong] + rest)));
    var c := s.code.value;
    ComparisonsOfOne(s, at, [wrong] + ([wrong] + ([wrong] + rest)), from, to);
    ComparisonsOfOne(s.(code := Some(c.(attempts := 1))), at, [wrong] + ([wrong] + rest), from, to);
    ComparisonsOfOne(s.(code := Some(c.(attempts := 2))), at, [wrong] + rest, from, to);
    ComparisonsOfOne(s.(code := Some(c.(attempts := 3))), at, rest, from, to);
  }

  lemma ComparisonsOfOne(s: Slot, at: int, rest: seq<Op>, from: int, to: int)
    requires from <= at < to
    requires s.code.Some? && s.code.value.attempts < MAX_ATTEMPTS && s.code.value.text != "wrong"
    requires at < s.code.value.expiry
    ensures var c := s.code.value;
            Comparisons(s, [GuessOp(at, "wrong", 3)] + rest, from, to) ==
            1 + Comparisons(s.(code := Some(c.(attempts := c.attempts + 1))), rest, from, to)
  {
    assert ([GuessOp(at, "wrong", 3)] + rest)[1..] == rest;
  }

  lemma {:induction false} SiegeCounts(i: nat, k: nat, to: int)
    requires 1 <= i <= k + 1 && 1 <= k && COOLDOWN * k < to
    ensures Comparisons(Awaiting(i), Siege(i, k), COOLDOWN, to) == 4 * (k + 2 - i)
    decreases k + 1 - i
  {
    var s := Awaiting(i);
    if i == k + 1 {
      ComparisonsOfFour(s, COOLDOWN * k, [], COOLDOWN, to);
      assert Siege(i, k) == Siege(i, k) + [];
    } else {
      RoundCounts(i, Siege(i + 1, k), to);
      SiegeCounts(i + 1, k, to);
    }
  }

  lemma RoundCounts(i: nat, rest: seq<Op>, to: int)
    requires 1 <= i && COOLDOWN * i < to
    ensures Comparisons(Awaiting(i), Round(i) + rest, COOLDOWN, to) ==
            4 + Comparisons(Awaiting(i + 1), rest, COOLDOWN, to)
  {
    var wrong := GuessOp(COOLDOWN * i, "wrong", 3);
    var send := SendOp(COOLDOWN * i, "right", TEN_MINUTES, ALL_UP);
    ComparisonsOfFour(Awaiting(i), COOLDOWN * i, [send] + rest, COOLDOWN, to);
    assert Round(i) + rest == [wrong, wrong, wrong, wrong] + ([send] + rest);
    assert ([send] + rest)[1..] == rest;
  }

  /** Calls never run backwards in a siege. */
  lemma {:induction false} SiegeOrdered(i: nat, k: nat)
    requires i <= k + 1
    ensures Ordered(Siege(i, k))
    ensures forall n | 0 <= n < |Siege(i, k)| :: COOLDOWN * (if i == k + 1 then k else i) <= Siege(i, k)[n].at
    decreases k + 1 - i
  {
    if i <= k {
      SiegeOrdered(i + 1, k);
    }
  }

  /** The bound is exact: a code sent before the interval and one at each cooldown reach it. */
  lemma GuessBoundIsReached(length: nat)
    requires 1 <= length
    ensures exists ops :: Ordered(ops) &&
              Comparisons(NO_CODE, ops, COOLDOWN, COOLDOWN + length)
              == MAX_ATTEMPTS * (CeilDiv(length, COOLDOWN) + 1)
  {
    var k := CeilDiv(length, COOLDOWN);
    var first := SendOp(0, "right", TEN_MINUTES, ALL_UP);
    var ops := [first] + Siege(1, k);
    SiegeOrdered(1, k);
    SiegeCounts(1, k, COOLDOWN + length);
    assert ops[1..] == Siege(1, k);
    assert Step(NO_CODE, first) == Awaiting(1);
    assert Ordered(ops) && Comparisons(NO_CODE, ops, COOLDOWN, COOLDOWN + length) == 4 * (k + 1);
  }
}
