/** Authenticator codes: their digits, the step a code belongs to, and that no step is accepted twice. */
module Totp {
  import opened Prelude

  type Byte = b: nat | b < 256

  /** A 160-bit message authentication code; which one a counter has under a secret is left open. */
  type Mac = m: seq<Byte> | |m| == 20 witness seq(20, i => 0)

  type Macs = nat -> Mac

  const DIGITS := 6
  const PERIOD := 30

  function Pow10(n: nat): nat
    ensures Pow10(n) > 0
  {
    if n == 0 then 1 else 10 * Pow10(n - 1)
  }

  /** Four bytes, the highest first. */
  function Word(a: nat, b: nat, c: nat, d: nat): nat {
    ((a * 256 + b) * 256 + c) * 256 + d
  }

  /** Dynamic truncation (section 5.3 of RFC 4226): four bytes from an offset the last byte names, without
      the sign bit. */
  function Truncated(m: Mac): nat {
    var o := m[19] % 16;
    Word(m[o], m[o + 1], m[o + 2], m[o + 3]) % 0x8000_0000
  }

  /** The message authentication code of the example in section 5.4 of RFC 4226. */
  const RFC_EXAMPLE: Mac := [0x1f, 0x86, 0x98, 0x69, 0x0e, 0x02, 0xca, 0x16, 0x61, 0x85,
                             0x50, 0xef, 0x7f, 0x19, 0xda, 0x8e, 0x94, 0x5b, 0x55, 0x5a]

  /** What the RFC makes of it: the four bytes from the tenth on, and the code 872921. */
  lemma TruncatedExample()
    ensures Truncated(RFC_EXAMPLE) == 0x50ef7f19 && CodeOf(RFC_EXAMPLE, "872921")
  {
    hide Number, Pow10;
    assert RFC_EXAMPLE[19] % 16 == 10;
    ExampleDigits();
  }

  lemma ExampleDigits()
    ensures AllDigits("872921") && Number("872921") == 872921 && Pow10(6) == 1_000_000
  {
    NumberOf("", '8');
    NumberOf("8", '7');
    NumberOf("87", '2');
    NumberOf("872", '9');
    NumberOf("8729", '2');
    NumberOf("87292", '1');
    assert "" + "8" == "8" && "8" + "7" == "87" && "87" + "2" == "872" && "872" + "9" == "8729";
    assert "8729" + "2" == "87292" && "87292" + "1" == "872921";
    assert Pow10(3) == 1000;
    assert Pow10(6) == 10 * (10 * (10 * Pow10(3)));
  }

  lemma NumberOf(digits: string, last: char)
    requires AllDigits(digits) && IsDigit(last)
    ensures AllDigits(digits + [last]) && Number(digits + [last]) == 10 * Number(digits) + (last as int - '0' as int)
  {
    assert (digits + [last])[..|digits|] == digits;
  }

  /** Four bytes in a row as a number without its highest bit. */
  lemma TruncatedIsWord(m: Mac, o: nat)
    requires o < 16 && m[19] % 16 == o
    ensures Truncated(m) == ((m[o] as nat) % 128) * 0x100_0000 + (m[o + 1] as nat) * 0x1_0000
                            + (m[o + 2] as nat) * 0x100 + (m[o + 3] as nat)
  {
  }

  predicate IsDigit(c: char) {
    '0' <= c <= '9'
  }

  predicate AllDigits(s: string) {
    forall i :: 0 <= i < |s| ==> IsDigit(s[i])
  }

  /** The number a row of digits writes. */
  function Number(s: string): nat
    requires AllDigits(s)
  {
    if s == "" then 0 else 10 * Number(s[..|s| - 1]) + (s[|s| - 1] as int - '0' as int)
  }

  /** The code of a counter: the truncated value modulo a million, zero-padded. */
  predicate CodeOf(m: Mac, code: string) {
    |code| == DIGITS && AllDigits(code) && Number(code) == Truncated(m) % Pow10(DIGITS)
  }

  lemma {:induction false} NumberIsSmall(s: string)
    requires AllDigits(s)
    ensures Number(s) < Pow10(|s|)
  {
    if s != "" {
      NumberIsSmall(s[..|s| - 1]);
    }
  }

  /** A number has one row of digits of a length: codes are equal exactly when their values are. */
  lemma {:induction false} DigitsAreUnique(s: string, t: string)
    requires AllDigits(s) && AllDigits(t) && |s| == |t|
    ensures Number(s) == Number(t) <==> s == t
  {
    if s != "" {
      var n := |s| - 1;
      var a, b := s[n] as int - '0' as int, t[n] as int - '0' as int;
      DigitsAreUnique(s[..n], t[..n]);
      if Number(s) == Number(t) {
        assert a == (10 * Number(s[..n]) + a) % 10 && b == (10 * Number(t[..n]) + b) % 10;
        assert s == s[..n] + [s[n]] && t == t[..n] + [t[n]];
      }
    }
  }

  lemma MulMono(x: int, y: int, d: nat)
    ensures x < y ==> x * d + d <= y * d
  {
    if x < y {
      Distribute(x, y - x, d);
      Distribute(1, y - x - 1, d);
      Product(y - x - 1, d);
    }
  }

  lemma Distribute(a: int, b: int, d: int)
    ensures (a + b) * d == a * d + b * d
  {
  }

  lemma Product(a: nat, b: nat)
    ensures a * b >= 0
  {
  }

  lemma Quotient(v: nat, d: nat, a: nat, b: nat)
    requires d > 0 && v == a * d + b && b < d
    ensures v / d == a && v % d == b
  {
    var q := v / d;
    assert v == q * d + v % d;
    MulMono(q, a, d);
    MulMono(a, q, d);
  }

  /** A digit before n others counts for ten to the n. */
  lemma {:induction false} NumberPrepend(digit: char, code: string)
    requires IsDigit(digit) && AllDigits(code)
    ensures AllDigits([digit] + code)
    ensures Number([digit] + code) == (digit as int - '0' as int) * Pow10(|code|) + Number(code)
  {
    if code == "" {
      assert [digit] + code == [digit] && [digit][..0] == "";
    } else {
      var n := |code| - 1;
      NumberPrepend(digit, code[..n]);
      assert ([digit] + code)[..|code|] == [digit] + code[..n];
      Tens(digit as int - '0' as int, Pow10(n));
    }
  }

  lemma Tens(x: int, p: int)
    ensures x * (10 * p) == 10 * (x * p)
  {
  }

  /** The digits are written from the last one back. */
  method Hotp(m: Mac) returns (code: string)
    ensures CodeOf(m, code)
  {
    var offset := m[19] % 16;
    var value := Word(m[offset], m[offset + 1], m[offset + 2], m[offset + 3]) % 0x8000_0000;
    var modulus := 1;
    for i := 0 to DIGITS
      invariant modulus == Pow10(i)
    {
      modulus := modulus * 10;
    }
    value := value % modulus;
    ghost var whole := value;
    code := "";
    var index := DIGITS;
    while index > 0
      invariant 0 <= index <= DIGITS && |code| == DIGITS - index && AllDigits(code)
      invariant value == whole / Pow10(DIGITS - index) && Number(code) == whole % Pow10(DIGITS - index)
      invariant whole < Pow10(DIGITS)
    {
      ghost var n := DIGITS - index;
      var digit := ((value % 10) + '0' as int) as char;
      NextDigit(whole, n, value, digit, code);
      code := [digit] + code;
      value := value / 10;
      index := index - 1;
    }
    LastDigit(whole);
  }

  lemma LastDigit(whole: nat)
    requires whole < Pow10(DIGITS)
    ensures whole % Pow10(DIGITS) == whole
  {
    Quotient(whole, Pow10(DIGITS), 0, whole);
  }

  lemma NextDigit(whole: nat, n: nat, value: nat, digit: char, code: string)
    requires value == whole / Pow10(n) && |code| == n && AllDigits(code) && Number(code) == whole % Pow10(n)
    requires digit == ((value % 10) + '0' as int) as char
    ensures AllDigits([digit] + code) && Number([digit] + code) == whole % Pow10(n + 1)
    ensures value / 10 == whole / Pow10(n + 1)
  {
    NumberPrepend(digit, code);
    DigitSplit(whole, Pow10(n));
  }

  /** One more digit of a number split at p. */
  lemma DigitSplit(v: nat, p: nat)
    requires p > 0
    ensures v / p / 10 == v / (10 * p) && v % (10 * p) == (v / p % 10) * p + v % p
  {
    var q, r := v / p, v % p;
    var a, b := q / 10, q % 10;
    assert v == q * p + r;
    assert q * p == (10 * a + b) * p == 10 * a * p + b * p;
    assert 10 * a * p == a * (10 * p);
    MulMono(b, 10, p);
    Quotient(v, 10 * p, a, b * p + r);
  }

  // ---------------------------------------------------------------- what a person types

  predicate Separator(c: char) {
    c == ' ' || c == '-' || c == '\t'
  }

  function Kept(code: string): string {
    if code == "" then ""
    else Kept(code[..|code| - 1]) + if Separator(code[|code| - 1]) then "" else [code[|code| - 1]]
  }

  /** Exactly six digits and nothing else but separators; anything else is no code at all. */
  function Normal(code: string): string {
    if |Kept(code)| == DIGITS && AllDigits(Kept(code)) then Kept(code) else ""
  }

  lemma {:induction false} KeptGrows(a: string, b: string)
    ensures Kept(a) <= Kept(a + b)
  {
    if b == "" {
      assert a + b == a;
    } else {
      assert (a + b)[..|a + b| - 1] == a + b[..|b| - 1];
      KeptGrows(a, b[..|b| - 1]);
    }
  }

  method Normalize(code: string) returns (r: string)
    ensures r == Normal(code)
  {
    r := "";
    var i := 0;
    while i < |code|
      invariant 0 <= i <= |code| && r == Kept(code[..i]) && AllDigits(r) && |r| <= DIGITS
    {
      assert code[..i + 1][..i] == code[..i];
      KeptGrows(code[..i + 1], code[i + 1..]);
      assert code == code[..i + 1] + code[i + 1..];
      if Separator(code[i]) {
      } else if IsDigit(code[i]) {
        if |r| == DIGITS {
          return "";
        }
        r := r + [code[i]];
      } else {
        assert Kept(code)[|r|] == code[i];
        return "";
      }
      i := i + 1;
    }
    assert code[..i] == code;
    if |r| != DIGITS {
      return "";
    }
  }

  // ---------------------------------------------------------------- the step a code belongs to

  function Counter(seconds: int): nat {
    if seconds < 0 then 0 else seconds / PERIOD
  }

  predicate Matches(macs: Macs, code: string, step: nat) {
    Normal(code) != "" && CodeOf(macs(step), Normal(code))
  }

  predicate Near(step: nat, current: nat) {
    current <= step + 1 && step <= current + 1
  }

  /** The latest step within one of the clock whose code this is; none when there is no such step. */
  ghost predicate IsMatch(macs: Macs, code: string, current: nat, r: Option<nat>) {
    match r
    case None => forall s: nat :: Near(s, current) ==> !Matches(macs, code, s)
    case Some(step) =>
      && Near(step, current) && Matches(macs, code, step)
      && forall s: nat :: Near(s, current) && s > step ==> !Matches(macs, code, s)
  }

  method MatchStep(macs: Macs, code: string, seconds: int) returns (r: Option<nat>)
    ensures IsMatch(macs, code, Counter(seconds), r)
  {
    var typed := Normalize(code);
    if typed == "" {
      return None;
    }
    var current := Counter(seconds);
    r := None;
    var delta: int := -1;
    while delta <= 1
      invariant -1 <= delta <= 2
      invariant r.Some? ==> Near(r.value, current) && r.value < current + delta && Matches(macs, code, r.value)
      invariant forall s: nat :: Near(s, current) && s < current + delta && (r.Some? ==> s > r.value)
                  ==> !Matches(macs, code, s)
    {
      if !(delta < 0 && current < -delta) {
        var step := current + delta;
        var right := Hotp(macs(step));
        DigitsAreUnique(right, typed);
        if right == typed {
          r := Some(step);
        }
      }
      delta := delta + 1;
    }
  }

  /** Taking the latest step is what ends a code's use: while the clock has not moved to a later step, the
      same code never gives a later one again. */
  lemma LatestMatchEndsReplay(macs: Macs, code: string, current: nat, step: nat, current': nat, r: Option<nat>)
    requires IsMatch(macs, code, current, Some(step)) && current' <= current && IsMatch(macs, code, current', r)
    ensures r.Some? ==> r.value <= step
  {
    if r.Some? && r.value > step {
      assert Near(r.value, current);
    }
  }

  // ---------------------------------------------------------------- the replay guard

  /** An account's authenticator: confirmed or not, and the last step accepted. */
  datatype Row = Row(enabled: bool, last: nat)

  /** accepted is history: the steps accepted in this enrollment, the confirming one first. checks are the
      verifications under way, each with the step its code matched. */
  datatype State = State(row: Option<Row>, checks: seq<Option<nat>>, accepted: seq<nat>)

  datatype Event =
    | Begin
    | Confirm(step: nat)
    | Read(c: nat, matched: nat)
    | Record(c: nat)
    | Disable

  predicate Enabled(s: State) {
    s.row.Some? && s.row.value.enabled
  }

  predicate Can(s: State, e: Event) {
    match e
    case Begin => !Enabled(s)
    case Confirm(_) => s.row.Some? && !Enabled(s)
    case Read(c, _) => c < |s.checks| && Enabled(s)
    case Record(c) => c < |s.checks| && s.checks[c].Some?
    case Disable => true
  }

  /** The conditional update changes the row only of an enabled authenticator, to a later step. */
  predicate Accepts(s: State, step: nat) {
    Enabled(s) && s.row.value.last < step
  }

  function After(s: State, e: Event): State
    requires Can(s, e)
  {
    match e
    case Begin => s.(row := Some(Row(false, 0)), accepted := [])
    case Confirm(step) => s.(row := Some(Row(true, step)), accepted := [step])
    case Read(c, matched) => s.(checks := s.checks[c := Some(matched)])
    case Record(c) =>
      var step := s.checks[c].value;
      var s' := s.(checks := s.checks[c := None]);
      if Accepts(s, step) then s'.(row := Some(Row(true, step)), accepted := s.accepted + [step]) else s'
    case Disable => s.(row := None, accepted := [])
  }

  predicate Run(s: State, es: seq<Event>)
    decreases |es|
  {
    es == [] || (Can(s, es[0]) && Run(After(s, es[0]), es[1..]))
  }

  function End(s: State, es: seq<Event>): State
    requires Run(s, es)
    decreases |es|
  {
    if es == [] then s else End(After(s, es[0]), es[1..])
  }

  predicate Increasing(steps: seq<nat>) {
    forall i, j :: 0 <= i < j < |steps| ==> steps[i] < steps[j]
  }

  predicate Guarded(s: State) {
    && Increasing(s.accepted)
    && (Enabled(s) ==> s.accepted != [] && s.accepted[|s.accepted| - 1] == s.row.value.last)
    && (!Enabled(s) ==> s.accepted == [])
  }

  lemma {:induction false} RunStaysGuarded(s: State, es: seq<Event>)
    requires Guarded(s) && Run(s, es)
    ensures Guarded(End(s, es))
    decreases |es|
  {
    if es != [] {
      RunStaysGuarded(After(s, es[0]), es[1..]);
    }
  }

  /** Within one enrollment the accepted steps, the confirming one first, only go up, however verifications
      race: so no step is accepted twice. */
  lemma StepsAcceptedOnce(checks: seq<Option<nat>>, es: seq<Event>)
    requires Run(State(None, checks, []), es)
    ensures Increasing(End(State(None, checks, []), es).accepted)
  {
    RunStaysGuarded(State(None, checks, []), es);
  }

  /** Of two verifications that matched one step, whatever comes between, at most one is accepted. */
  lemma {:induction false} RaceHasOneWinner(s: State, c: nat, es: seq<Event>, d: nat)
    requires Guarded(s) && Can(s, Record(c)) && Accepts(s, s.checks[c].value)
    requires Run(After(s, Record(c)), es) && Begin !in es && Disable !in es
    requires var s' := End(After(s, Record(c)), es); Can(s', Record(d)) && s'.checks[d] == s.checks[c]
    ensures var s' := End(After(s, Record(c)), es); !Accepts(s', s'.checks[d].value)
  {
    LastOnlyRises(After(s, Record(c)), es);
  }

  lemma {:induction false} LastOnlyRises(s: State, es: seq<Event>)
    requires Enabled(s) && Run(s, es) && Begin !in es && Disable !in es
    ensures Enabled(End(s, es)) && s.row.value.last <= End(s, es).row.value.last
    decreases |es|
  {
    if es != [] {
      assert es[0] in es;
      LastOnlyRises(After(s, es[0]), es[1..]);
    }
  }

  // ---------------------------------------------------------------- what is read and when it is accepted

  /** Spaces, dashes and tabs a person types make no difference, wherever they stand; anything else is kept. */
  lemma {:induction false} TypedExactly(a: string, c: char, b: string)
    ensures Kept(a + [c] + b) == if c in {' ', '-', '\t'} then Kept(a + b) else Kept(a) + [c] + Kept(b)
    ensures Kept("") == ""
    decreases |b|
  {
    if b == "" {
      assert a + [c] + b == a + [c] && (a + [c])[..|a|] == a && a + b == a;
      assert Kept(a) + [c] + "" == Kept(a) + [c];
    } else {
      var less, last := b[..|b| - 1], b[|b| - 1];
      TypedExactly(a, c, less);
      assert (a + [c] + b)[..|a + [c] + b| - 1] == a + [c] + less;
      assert (a + b)[..|a + b| - 1] == a + less;
    }
  }

  /** What is kept is a code when it is six digits, and nothing is when it is not. */
  lemma NormalExactly(code: string)
    ensures Normal(code)
            == if |Kept(code)| == 6 && forall i :: 0 <= i < 6 ==> '0' <= Kept(code)[i] <= '9' then Kept(code) else ""
  {
  }

  /** code is the code of a step. */
  predicate Fits(macs: Macs, code: string, step: nat) {
    Normal(code) != "" && Number(Normal(code)) == Truncated(macs(step)) % 1_000_000
  }

  lemma MatchesIsFits(macs: Macs, code: string, step: nat)
    ensures Matches(macs, code, step) <==> Fits(macs, code, step)
  {
    ExampleDigits();
  }

  /** A code is looked for in the step after the clock's, the clock's own, and the one before, and the first it fits
      is the one it is of; time before the epoch counts as the first step. */
  lemma MatchedExactly(macs: Macs, code: string, seconds: int, r: Option<nat>)
    requires IsMatch(macs, code, Counter(seconds), r)
    ensures var now: nat := if seconds < 0 then 0 else seconds / 30;
            && Counter(seconds) == now
            && r == if Fits(macs, code, now + 1) then Some(now + 1)
                    else if Fits(macs, code, now) then Some(now)
                    else if now > 0 && Fits(macs, code, now - 1) then Some(now - 1) else None
  {
    hide Fits, Matches;
    var now := Counter(seconds);
    MatchesIsFits(macs, code, now + 1);
    MatchesIsFits(macs, code, now);
    assert Near(now + 1, now) && Near(now, now);
    if now > 0 {
      MatchesIsFits(macs, code, now - 1);
      assert Near(now - 1, now);
    }
  }

  /** So a code read off at one time is found at any other up to thirty seconds from it, either way. */
  lemma SkewIsTolerated(macs: Macs, code: string, shown: nat, seconds: nat, r: Option<nat>)
    requires Fits(macs, code, shown / 30) && shown - 30 <= seconds <= shown + 30
    requires IsMatch(macs, code, Counter(seconds), r)
    ensures r.Some? && r.value >= shown / 30
  {
    hide Fits, Matches;
    MatchedExactly(macs, code, seconds, r);
    MatchesIsFits(macs, code, shown / 30);
  }

  /** A verification is accepted exactly when the authenticator is enabled and its step is later than the last one
      accepted, and then that is the last. */
  lemma RecordedExactly(s: State, c: nat)
    requires c < |s.checks| && s.checks[c].Some?
    ensures var step, s' := s.checks[c].value, After(s, Record(c));
            && s'.checks == s.checks[c := None]
            && if s.row.Some? && s.row.value.enabled && s.row.value.last < step
               then s'.row == Some(Row(true, step)) && s'.accepted == s.accepted + [step]
               else s'.row == s.row && s'.accepted == s.accepted
  {
  }

  /** Enrolling anew, confirming, and turning it off. */
  lemma EnrolledExactly(s: State, step: nat)
    ensures Can(s, Disable) && After(s, Disable) == s.(row := None, accepted := [])
    ensures Can(s, Begin) <==> s.row == None || !s.row.value.enabled
    ensures Can(s, Begin) ==>
              var s' := After(s, Begin);
              s'.row == Some(Row(false, 0)) && s'.accepted == [] && s'.checks == s.checks
    ensures Can(s, Confirm(step)) <==> s.row.Some? && !s.row.value.enabled
    ensures Can(s, Confirm(step)) ==> After(s, Confirm(step)) == s.(row := Some(Row(true, step)), accepted := [step])
    ensures forall c: nat :: c < |s.checks| && s.row.Some? && s.row.value.enabled ==>
              Can(s, Read(c, step)) && After(s, Read(c, step)) == s.(checks := s.checks[c := Some(step)])
  {
  }
}
