/** The agent quota: a check that reads a count, followed later by the inserts it
    allowed, with nothing holding the two together. */
module QuotaRace {
  import opened Wrappers

  // ----- The decision -----

  datatype Verdict = Allowed | Exceeded(count: int, limit: int, requested: int)

  function Charged(additional: int): int {
    if additional < 1 then 1 else additional
  }

  method Evaluate(count: int, additional: int, limit: int) returns (v: Verdict)
    ensures v.Allowed? <==> count + Charged(additional) <= limit
    ensures v.Exceeded? ==> v == Exceeded(count, limit, Charged(additional))
    ensures additional >= 1 ==> (v.Allowed? <==> count + additional <= limit)
    ensures additional < 1 ==> (v.Allowed? <==> count < limit)
  {
    var requested := additional;
    if requested < 1 {
      requested := 1;
    }
    if count + requested <= limit {
      return Allowed;
    }
    return Exceeded(count, limit, requested);
  }

  // ----- The plan limit -----

  const MIN_INT: int := -0x8000_0000_0000_0000
  const MAX_INT: int := 0x7fff_ffff_ffff_ffff

  predicate IsDigit(c: char) {
    '0' <= c <= '9'
  }

  predicate AllDigits(text: string) {
    forall i :: 0 <= i < |text| ==> IsDigit(text[i])
  }

  function DigitValue(c: char): nat
    requires IsDigit(c)
  {
    (c - '0') as int
  }

  function Magnitude(digits: string): nat
    requires AllDigits(digits)
  {
    if digits == [] then 0
    else Magnitude(digits[..|digits| - 1]) * 10 + DigitValue(digits[|digits| - 1])
  }

  /** Atoi: an optional sign, then decimal digits and nothing else, within 64 bits. */
  function Atoi(text: string): Option<int> {
    var signed := text != [] && (text[0] == '-' || text[0] == '+');
    var digits := if signed then text[1..] else text;
    if digits == [] || !AllDigits(digits) then None
    else
      var magnitude: int := Magnitude(digits);
      var value := if signed && text[0] == '-' then -magnitude else magnitude;
      if MIN_INT <= value <= MAX_INT then Some(value) else None
  }

  function Digits(n: nat): (s: string)
    ensures s != [] && AllDigits(s)
  {
    if n < 10 then ['0' + n as char] else Digits(n / 10) + ['0' + (n % 10) as char]
  }

  function Printed(value: int): string {
    if value < 0 then ['-'] + Digits(-value) else Digits(value)
  }

  lemma {:induction false} MagnitudeOfDigits(n: nat)
    ensures Magnitude(Digits(n)) == n
  {
    if n < 10 {
      assert Digits(n)[..0] == [];
    } else {
      MagnitudeOfDigits(n / 10);
      assert Digits(n)[..|Digits(n)| - 1] == Digits(n / 10);
    }
  }

  /** A limit stored as a decimal number is the limit that is enforced, if it fits
      64 bits. */
  lemma PrintedIsRead(value: int)
    ensures Atoi(Printed(value)) == if MIN_INT <= value <= MAX_INT then Some(value) else None
  {
    if value < 0 {
      MagnitudeOfDigits(-value);
      assert Printed(value)[1..] == Digits(-value);
    } else {
      MagnitudeOfDigits(value);
      assert IsDigit(Digits(value)[0]);
    }
  }

  // ----- What is read, digit by digit -----

  predicate IsNumeral(text: string) {
    text != "" && forall i :: 0 <= i < |text| ==> text[i] in "0123456789"
  }

  /** The value after each digit, from the left. */
  predicate Counts(digits: string, totals: seq<int>) {
    && |totals| == |digits| + 1 && totals[0] == 0
    && forall k :: 0 <= k < |digits| ==> totals[k + 1] == 10 * totals[k] + (digits[k] as int - 48)
  }

  lemma DigitsAreNumerals(c: char)
    ensures IsDigit(c) <==> c in "0123456789"
  {
    assert c in "0123456789" <==>
      c == '0' || c == '1' || c == '2' || c == '3' || c == '4' || c == '5' || c == '6' || c == '7' || c == '8'
        || c == '9';
  }

  lemma {:induction false} MagnitudeCounts(digits: string, totals: seq<int>)
    requires AllDigits(digits) && Counts(digits, totals)
    ensures Magnitude(digits) == totals[|digits|]
  {
    if digits != [] {
      var n := |digits| - 1;
      MagnitudeCounts(digits[..n], totals[..n + 1]);
    }
  }

  /** The text without one leading sign. */
  function Unsigned(text: string): string {
    if text != "" && text[0] in {'-', '+'} then text[1..] else text
  }

  /** A text that is no number is never read, whatever it looks like otherwise. */
  lemma OthersAreNotRead(text: string)
    requires !IsNumeral(Unsigned(text))
    ensures Atoi(text) == None
  {
    var digits := Unsigned(text);
    if digits != "" {
      var i :| 0 <= i < |digits| && digits[i] !in "0123456789";
      DigitsAreNumerals(digits[i]);
      assert !AllDigits(digits);
    }
  }

  /** A text is a number when, after at most one sign, it is digits and nothing else;
      its value is then what the digits count to, negated behind a minus, if that
      fits 64 bits. */
  lemma ReadExactly(text: string, totals: seq<int>)
    requires Counts(Unsigned(text), totals)
    ensures !IsNumeral(Unsigned(text)) ==> Atoi(text) == None
    ensures IsNumeral(Unsigned(text)) ==>
      var value := if text[0] == '-' then -totals[|Unsigned(text)|] else totals[|Unsigned(text)|];
      Atoi(text) == if -9223372036854775808 <= value <= 9223372036854775807 then Some(value) else None
  {
    var digits := Unsigned(text);
    if IsNumeral(digits) {
      forall i | 0 <= i < |digits| ensures IsDigit(digits[i]) {
        DigitsAreNumerals(digits[i]);
      }
      MagnitudeCounts(digits, totals);
    } else {
      OthersAreNotRead(text);
    }
  }

  // ----- The limit of a plan -----

  /** What the query for the plan's agent limit gives: an error, no subscription row,
      or a row whose text may be NULL. */
  datatype PlanRead = ReadFailed | NoSubscription | Subscribed(raw: Option<string>)

  /** Anything but a decimal integer means no limit. */
  function PlanLimit(plan: PlanRead): Option<int> {
    match plan
    case Subscribed(Some(text)) => Atoi(text)
    case _ => None
  }

  method TenantAgentLimit(plan: PlanRead) returns (limit: int, enforce: bool)
    ensures enforce <==> PlanLimit(plan).Some?
    ensures enforce ==> limit == PlanLimit(plan).value
    ensures plan in {ReadFailed, NoSubscription, Subscribed(None)} ==> !enforce
    ensures plan.Subscribed? && plan.raw.Some? && !IsNumeral(Unsigned(plan.raw.value)) ==> !enforce
    ensures forall value :: MIN_INT <= value <= MAX_INT && plan == Subscribed(Some(Printed(value))) ==>
      enforce && limit == value
  {
    if plan.Subscribed? && plan.raw.Some? && !IsNumeral(Unsigned(plan.raw.value)) {
      OthersAreNotRead(plan.raw.value);
    }
    forall value ensures Atoi(Printed(value)) == if MIN_INT <= value <= MAX_INT then Some(value) else None {
      PrintedIsRead(value);
    }
    if plan.ReadFailed? {
      return 0, false;
    }
    if plan.NoSubscription? || plan.raw.None? || plan.raw.value == "" {
      return 0, false;
    }
    var value := Atoi(plan.raw.value);
    if value.None? {
      return 0, false;
    }
    return value.value, true;
  }

  // ----- The check -----

  /** What a check meets: the tenant of the request, whether a scope-bound
      connection exists, the plan it reads, and whether the count can be read. */
  datatype Reads = Reads(tenant: string, connected: bool, plan: PlanRead, countable: bool)

  /** The limit is enforced only when everything can be read; otherwise the check
      lets the request pass. */
  predicate Enforces(r: Reads) {
    r.tenant != "" && r.connected && PlanLimit(r.plan).Some? && r.countable
  }

  predicate Passes(r: Reads, count: int, additional: int) {
    Enforces(r) ==> count + Charged(additional) <= PlanLimit(r.plan).value
  }

  method Check(r: Reads, count: int, additional: int) returns (v: Verdict)
    ensures v.Allowed? <==> Passes(r, count, additional)
    ensures v.Exceeded? ==> v == Exceeded(count, PlanLimit(r.plan).value, Charged(additional))
    ensures r.tenant == "" || !r.connected || !r.countable || PlanLimit(r.plan).None? ==> v.Allowed?
    ensures r.tenant != "" && r.connected && r.countable && PlanLimit(r.plan).Some? && additional >= 1 ==>
      (v.Allowed? <==> count + additional <= PlanLimit(r.plan).value)
  {
    if r.tenant == "" {
      return Allowed;
    }
    if !r.connected {
      return Allowed;
    }
    var limit, enforce := TenantAgentLimit(r.plan);
    if !enforce {
      return Allowed;
    }
    if !r.countable {
      return Allowed;
    }
    v := Evaluate(count, additional, limit);
  }

  // ----- Interleavings -----

  /** The stored count; for each of the concurrent handlers, the rows its admitted
      request has still to write; and, for the record, the rows admitted by checks
      that enforced nothing. */
  datatype State = State(count: nat, pending: seq<nat>, unmetered: nat)

  datatype Event =
    | Create(slot: nat, seen: Reads)
    | Import(slot: nat, size: nat, seen: Reads)
    | Insert(slot: nat)
    | Abort(slot: nat)
    | Remove

  /** A handler takes a request when it is idle. An empty import is not checked,
      and creates nothing. */
  function Admit(s: State, slot: nat, size: nat, r: Reads): State {
    if slot < |s.pending| && s.pending[slot] == 0 && size > 0 && Passes(r, s.count, size) then
      State(s.count, s.pending[slot := size], if Enforces(r) then s.unmetered else s.unmetered + size)
    else s
  }

  /** One atomic step. Inserts come one row at a time, and a request may stop after
      any of them; agents may also be deleted. */
  function Step(s: State, e: Event): State {
    match e
    case Create(slot, r) => Admit(s, slot, 1, r)
    case Import(slot, size, r) => Admit(s, slot, size, r)
    case Insert(slot) =>
      if slot < |s.pending| && s.pending[slot] > 0 then
        s.(count := s.count + 1, pending := s.pending[slot := s.pending[slot] - 1])
      else s
    case Abort(slot) => if slot < |s.pending| then s.(pending := s.pending[slot := 0]) else s
    case Remove => if s.count > 0 then s.(count := s.count - 1) else s
  }

  function Run(s: State, events: seq<Event>): State
    decreases |events|
  {
    if events == [] then s else Run(Step(s, events[0]), events[1..])
  }

  /** Requests of at most `size` rows, and limits of at most `limit`. */
  predicate Modest(e: Event, size: nat, limit: int) {
    match e
    case Create(_, r) => size >= 1 && (Enforces(r) ==> PlanLimit(r.plan).value <= limit)
    case Import(_, n, r) => n <= size && (Enforces(r) ==> PlanLimit(r.plan).value <= limit)
    case _ => true
  }

  function Sum(s: seq<nat>): nat {
    if s == [] then 0 else s[0] + Sum(s[1..])
  }

  lemma {:induction false} SumUpdate(s: seq<nat>, i: nat, x: nat)
    requires i < |s|
    ensures Sum(s[i := x]) == Sum(s) - s[i] + x
  {
    if i == 0 {
      assert s[0 := x][1..] == s[1..];
    } else {
      SumUpdate(s[1..], i - 1, x);
      assert s[i := x][1..] == s[1..][i - 1 := x];
    }
  }

  lemma OneLess(n: nat, size: nat)
    requires n > 0
    ensures n * size == (n - 1) * size + size
  {
  }

  lemma {:induction false} SumBounded(s: seq<nat>, size: nat)
    requires forall i :: 0 <= i < |s| ==> s[i] <= size
    ensures Sum(s) <= |s| * size
  {
    if s != [] {
      SumBounded(s[1..], size);
      OneLess(|s|, size);
    }
  }

  /** The others' rows, when one handler is idle. */
  lemma OthersBounded(s: seq<nat>, i: nat, size: nat)
    requires i < |s| && s[i] == 0
    requires forall j :: 0 <= j < |s| ==> s[j] <= size
    ensures Sum(s) <= (|s| - 1) * size
  {
    var full := s[i := size];
    SumUpdate(s, i, size);
    SumBounded(full, size);
    OneLess(|s|, size);
  }

  function Max(a: int, b: int): int {
    if a >= b then a else b
  }

  /** Stored plus promised rows stay under the bound, apart from unmetered ones. */
  ghost predicate Within(s: State, size: nat, bound: int) {
    && (forall i :: 0 <= i < |s.pending| ==> s.pending[i] <= size)
    && s.count + Sum(s.pending) <= bound + s.unmetered
  }

  /** The most a check can lead to: the limit, plus a full request of every other
      handler. */
  function Reach(limit: int, handlers: nat, size: nat): int {
    limit + (handlers - 1) * size
  }

  lemma AdmitKeepsWithin(s: State, slot: nat, n: nat, r: Reads, size: nat, limit: int, bound: int)
    requires Within(s, size, bound) && n <= size
    requires Enforces(r) ==> PlanLimit(r.plan).value <= limit
    requires Reach(limit, |s.pending|, size) <= bound
    ensures Within(Admit(s, slot, n, r), size, bound)
  {
    if slot < |s.pending| && s.pending[slot] == 0 && n > 0 && Passes(r, s.count, n) {
      SumUpdate(s.pending, slot, n);
      OthersBounded(s.pending, slot, size);
    }
  }

  lemma StepKeepsWithin(s: State, e: Event, size: nat, limit: int, bound: int)
    requires Within(s, size, bound) && Modest(e, size, limit)
    requires Reach(limit, |s.pending|, size) <= bound
    ensures Within(Step(s, e), size, bound)
    ensures |Step(s, e).pending| == |s.pending|
  {
    match e {
      case Create(slot, r) => AdmitKeepsWithin(s, slot, 1, r, size, limit, bound);
      case Import(slot, n, r) => AdmitKeepsWithin(s, slot, n, r, size, limit, bound);
      case Insert(slot) =>
        if slot < |s.pending| && s.pending[slot] > 0 {
          SumUpdate(s.pending, slot, s.pending[slot] - 1);
        }
      case Abort(slot) =>
        if slot < |s.pending| {
          SumUpdate(s.pending, slot, 0);
        }
      case Remove =>
    }
  }

  lemma {:induction false} RunKeepsWithin(s: State, events: seq<Event>, size: nat, limit: int, bound: int)
    requires Within(s, size, bound) && Reach(limit, |s.pending|, size) <= bound
    requires forall i :: 0 <= i < |events| ==> Modest(events[i], size, limit)
    ensures Within(Run(s, events), size, bound)
    decreases |events|
  {
    if events != [] {
      StepKeepsWithin(s, events[0], size, limit, bound);
      RunKeepsWithin(Step(s, events[0]), events[1..], size, limit, bound);
    }
  }

  /** No handler busy, nothing unmetered yet. */
  function Idle(count: nat, handlers: nat): State {
    State(count, seq(handlers, _ => 0), 0)
  }

  lemma {:induction false} SumOfZeros(s: seq<nat>)
    requires forall i :: 0 <= i < |s| ==> s[i] == 0
    ensures Sum(s) == 0
  {
    if s != [] {
      SumOfZeros(s[1..]);
    }
  }

  /** The overshoot bound, over every interleaving of checks, inserts, stopped
      imports and deletions: the count never passes the larger of where it started
      and the limit plus one full request per other handler. Only checks that could
      not read the quota add to that. */
  lemma OvershootBounded(count: nat, handlers: nat, events: seq<Event>, size: nat, limit: int)
    requires forall i :: 0 <= i < |events| ==> Modest(events[i], size, limit)
    ensures var s := Run(Idle(count, handlers), events);
      s.count <= Max(count, Reach(limit, handlers, size)) + s.unmetered
  {
    var s := Idle(count, handlers);
    SumOfZeros(s.pending);
    RunKeepsWithin(s, events, size, limit, Max(count, Reach(limit, handlers, size)));
  }

  /** One handler at a time never passes the limit. */
  lemma SerialNeverOvershoots(count: nat, events: seq<Event>, size: nat, limit: int)
    requires forall i :: 0 <= i < |events| ==> Modest(events[i], size, limit)
    ensures var s := Run(Idle(count, 1), events);
      s.count <= Max(count, limit) + s.unmetered
  {
    OvershootBounded(count, 1, events, size, limit);
  }

  /** Checks that always read the quota leave nothing unmetered. */
  lemma {:induction false} EnforcedIsMetered(s: State, events: seq<Event>)
    requires forall i :: 0 <= i < |events| ==>
      match events[i] case Create(_, r) => Enforces(r) case Import(_, _, r) => Enforces(r) case _ => true
    ensures Run(s, events).unmetered == s.unmetered
    decreases |events|
  {
    if events != [] {
      EnforcedIsMetered(Step(s, events[0]), events[1..]);
    }
  }

  // ----- The bound is reached -----

  function Enforcing(plan: PlanRead): Reads {
    Reads("t", true, plan, true)
  }

  /** Every handler from `slot` on checks a full import. */
  function Checks(slot: nat, handlers: nat, size: nat, plan: PlanRead): seq<Event>
    decreases handlers - slot
  {
    if slot >= handlers then [] else [Import(slot, size, Enforcing(plan))] + Checks(slot + 1, handlers, size, plan)
  }

  /** Inserts of handler `slot`. */
  function Inserts(slot: nat, n: nat): seq<Event> {
    if n == 0 then [] else [Insert(slot)] + Inserts(slot, n - 1)
  }

  function AllInserts(slot: nat, handlers: nat, size: nat): seq<Event>
    decreases handlers - slot
  {
    if slot >= handlers then [] else Inserts(slot, size) + AllInserts(slot + 1, handlers, size)
  }

  lemma {:induction false} RunConcat(s: State, a: seq<Event>, b: seq<Event>)
    ensures Run(s, a + b) == Run(Run(s, a), b)
    decreases |a|
  {
    if a == [] {
      assert a + b == b;
    } else {
      assert (a + b)[1..] == a[1..] + b;
      RunConcat(Step(s, a[0]), a[1..], b);
    }
  }

  lemma {:induction false} ChecksAllPass(s: State, slot: nat, size: nat, plan: PlanRead)
    requires size > 0 && PlanLimit(plan).Some? && s.count + size <= PlanLimit(plan).value && slot <= |s.pending|
    requires forall i :: slot <= i < |s.pending| ==> s.pending[i] == 0
    ensures var t := Run(s, Checks(slot, |s.pending|, size, plan));
      && t.count == s.count && |t.pending| == |s.pending|
      && (forall i :: 0 <= i < slot ==> t.pending[i] == s.pending[i])
      && (forall i :: slot <= i < |s.pending| ==> t.pending[i] == size)
    decreases |s.pending| - slot
  {
    if slot < |s.pending| {
      var e := Import(slot, size, Enforcing(plan));
      assert Checks(slot, |s.pending|, size, plan)[1..] == Checks(slot + 1, |s.pending|, size, plan);
      ChecksAllPass(Step(s, e), slot + 1, size, plan);
    }
  }

  lemma {:induction false} InsertsAllLand(s: State, slot: nat, n: nat)
    requires slot < |s.pending| && s.pending[slot] == n
    ensures Run(s, Inserts(slot, n)) == s.(count := s.count + n, pending := s.pending[slot := 0])
    decreases n
  {
    if n > 0 {
      assert Inserts(slot, n)[1..] == Inserts(slot, n - 1);
      InsertsAllLand(Step(s, Insert(slot)), slot, n - 1);
    } else {
      assert s.pending[slot := 0] == s.pending;
    }
  }

  lemma {:induction false} EveryInsertLands(s: State, slot: nat, size: nat)
    requires slot <= |s.pending| && forall i :: slot <= i < |s.pending| ==> s.pending[i] == size
    ensures Run(s, AllInserts(slot, |s.pending|, size)).count == s.count + (|s.pending| - slot) * size
    decreases |s.pending| - slot
  {
    if slot < |s.pending| {
      RunConcat(s, Inserts(slot, size), AllInserts(slot + 1, |s.pending|, size));
      InsertsAllLand(s, slot, size);
      EveryInsertLands(Run(s, Inserts(slot, size)), slot + 1, size);
      OneLess(|s.pending| - slot, size);
    }
  }

  /** The bound is exact: for any number of handlers, any request size and any plan
      whose limit admits one, some interleaving ends on it. */
  lemma OvershootReached(handlers: nat, size: nat, limit: nat, plan: PlanRead) returns (events: seq<Event>)
    requires handlers > 0 && 0 < size <= limit && PlanLimit(plan) == Some(limit)
    ensures Run(Idle(limit - size, handlers), events).count == Reach(limit, handlers, size)
  {
    var s := Idle(limit - size, handlers);
    var checks := Checks(0, handlers, size, plan);
    events := checks + AllInserts(0, handlers, size);
    RunConcat(s, checks, AllInserts(0, handlers, size));
    ChecksAllPass(s, 0, size, plan);
    EveryInsertLands(Run(s, checks), 0, size);
    OneLess(handlers, size);
  }
}
