/** internal/cron/cron.go, parse, parseField and parsePart. */
module CronParse {
  import opened Wrappers
  import opened Numerals
  import opened Remainders
  import opened Text
  import opened CronNext

  datatype Alias = Alias(name: string, value: nat)

  datatype FieldSpec = FieldSpec(min: int, max: int, names: seq<Alias>)

  predicate Usual(spec: FieldSpec) {
    && 0 <= spec.min <= 1 && spec.min <= spec.max <= 59
    && forall i :: 0 <= i < |spec.names| ==> spec.names[i].name != "" && 'a' <= spec.names[i].name[0] <= 'z'
  }

  const MONTHS := [
    Alias("jan", 1), Alias("feb", 2), Alias("mar", 3), Alias("apr", 4), Alias("may", 5), Alias("jun", 6),
    Alias("jul", 7), Alias("aug", 8), Alias("sep", 9), Alias("oct", 10), Alias("nov", 11), Alias("dec", 12)]

  const WEEKDAYS := [
    Alias("sun", 0), Alias("mon", 1), Alias("tue", 2), Alias("wed", 3), Alias("thu", 4), Alias("fri", 5),
      Alias("sat", 6)]

  const MINUTES := FieldSpec(0, 59, [])
  const HOURS := FieldSpec(0, 23, [])
  const DAYS := FieldSpec(1, 31, [])
  const MONTH := FieldSpec(1, 12, MONTHS)
  const WEEKDAY := FieldSpec(0, 6, WEEKDAYS)

  function Spec(i: nat): (spec: FieldSpec)
    ensures Usual(spec)
  {
    if i == 0 then MINUTES else if i == 1 then HOURS else if i == 2 then DAYS else if i == 3 then MONTH else WEEKDAY
  }

  // ---------------------------------------------------------------------------
  // Stepping through a range, with the 64-bit counter the loops use.

  /** A counter that the loops can reach: it stays small, or has just wrapped around. */
  predicate Reachable(i: int, step: int) {
    -200 <= i || (MIN_INT <= i <= MIN_INT + 200 && step >= MAX_INT - 199)
  }

  function Fuel(i: int, hi: int, step: int): int {
    if i > hi then 0
    else if step <= 0x4000_0000_0000_0000 then 301 - i
    else if i >= -200 then 2 * i + 500
    else 2 * (i - MIN_INT) + 500
  }

  /** The values visited by counting from `i` to `hi` in steps. */
  function Stepped(i: int, hi: int, step: int): set<int>
    requires 0 < step <= MAX_INT && hi <= 100 && Reachable(i, step)
    decreases Fuel(i, hi, step)
  {
    if i > hi then {} else {i} + Stepped(Wrap(i + step), hi, step)
  }

  /** The values a stepped range means. */
  predicate Every(lo: int, hi: int, step: int, v: int)
    requires step > 0
  {
    lo <= v <= hi && (v - lo) % step == 0
  }

  lemma EveryNext(i: int, hi: int, step: int, v: int)
    requires step > 0 && i <= hi
    ensures Every(i, hi, step, v) <==> v == i || Every(i + step, hi, step, v)
  {
    assert (v - i) % step == (v - (i + step)) % step by {
      assert v - i == (v - (i + step)) + step;
      AddStep(v - (i + step), step);
    }
    if i < v < i + step {
      SmallRemainder(v - i, step);
    }
  }

  lemma {:induction false} SteppedPlainly(i: int, hi: int, step: int, v: int)
    requires 0 < step && hi <= 100 && -200 <= i && step + hi <= MAX_INT && step <= MAX_INT
    ensures v in Stepped(i, hi, step) <==> Every(i, hi, step, v)
    decreases Fuel(i, hi, step)
  {
    if i <= hi {
      EveryNext(i, hi, step, v);
      if i + step <= hi {
        assert Wrap(i + step) == i + step;
        SteppedPlainly(i + step, hi, step, v);
      } else {
        assert Stepped(Wrap(i + step), hi, step) == {};
      }
    }
  }

  /** A step so large that counting wraps around: every second value lies this much lower. */
  function Drop(step: int): int {
    2 * (MAX_INT + 1 - step)
  }

  /** What a wrapping count visits, besides its start, lies at least one drop below it. */
  lemma {:induction false} SteppedAround(i: int, hi: int, step: int, v: int)
    requires -200 <= i <= 100 && hi <= 100 && MAX_INT - 100 < step <= MAX_INT && v >= 0
    ensures v in Stepped(i, hi, step) ==> v == i || v <= i - Drop(step)
    decreases i + 200
  {
    if i <= hi && v in Stepped(i, hi, step) && v != i {
      var j := Wrap(i + step);
      assert v in Stepped(j, hi, step);
      if i + step > MAX_INT {
        assert j == i + step + 2 * MIN_INT;
        var k := Wrap(j + step);
        assert k == i - Drop(step);
        assert v in Stepped(j, hi, step) && v != j;
        SteppedAround(k, hi, step, v);
      }
    }
  }

  lemma WrapsOnce(i: int, hi: int, step: int)
    requires 0 <= i <= hi <= 100 && MAX_INT - 100 < step <= MAX_INT && i - Drop(step) >= 0
    ensures i - Drop(step) in Stepped(i, hi, step)
  {
    var j := Wrap(i + step);
    assert j == i + step + 2 * MIN_INT;
    var k := Wrap(j + step);
    assert k == i - Drop(step);
    assert k in Stepped(k, hi, step);
    assert k in Stepped(j, hi, step);
  }

  lemma BigStepVisitsStart(i: int, hi: int, step: int, v: int)
    requires 0 <= i <= hi <= 100 && MAX_INT - 100 < step
    ensures Every(i, hi, step, v) <==> v == i
  {
    if i <= v <= hi {
      SmallRemainder(v - i, step);
    }
  }

  /**
   The loop sets exactly the values the range means, among those the field has, unless its counter wraps into them.
   */
  lemma SteppedIsEveryIff(lo: int, hi: int, step: int, min: int)
    requires 0 <= min <= lo <= hi <= 100 && 0 < step <= MAX_INT
    ensures (forall v :: v >= min ==> (v in Stepped(lo, hi, step) <==> Every(lo, hi, step, v))) <==>
      lo - Drop(step) < min
  {
    if step + hi <= MAX_INT {
      forall v ensures v in Stepped(lo, hi, step) <==> Every(lo, hi, step, v) {
        SteppedPlainly(lo, hi, step, v);
      }
    } else if lo - Drop(step) < min {
      forall v | v >= min ensures v in Stepped(lo, hi, step) <==> Every(lo, hi, step, v) {
        SteppedAround(lo, hi, step, v);
        BigStepVisitsStart(lo, hi, step, v);
      }
    } else {
      WrapsOnce(lo, hi, step);
      BigStepVisitsStart(lo, hi, step, lo - Drop(step));
    }
  }

  // ---------------------------------------------------------------------------
  // One part of a field: "*", "v", "lo-hi", each with or without "/step".

  function Aliased(s: string, names: seq<Alias>): string
    requires forall i :: 0 <= i < |names| ==> names[i].name != ""
    decreases |names|
  {
    if names == [] then s else Aliased(ReplaceAll(s, names[0].name, Itoa(names[0].value)), names[1..])
  }

  function ValuesOf(p: string, step: int, spec: FieldSpec): Option<set<int>>
    requires Usual(spec) && 0 < step <= MAX_INT
  {
    var dash := IndexOf(p, '-');
    if p == "*" then Some(Stepped(spec.min, spec.max, step))
    else if dash >= 0 then
      var lo, hi := Atoi(p[..dash]), Atoi(p[dash + 1..]);
      if lo.None? || hi.None? || lo.value < spec.min || hi.value > spec.max || lo.value > hi.value then None
      else Some(Stepped(lo.value, hi.value, step))
    else
      var v := Atoi(p);
      if v.None? || v.value < spec.min || v.value > spec.max then None else Some({v.value})
  }

  function PartOf(part: string, spec: FieldSpec): Option<set<int>>
    requires Usual(spec)
  {
    var p := Aliased(Lower(part), spec.names);
    var slash := IndexOf(p, '/');
    if slash < 0 then ValuesOf(p, 1, spec)
    else
      var step := Atoi(p[slash + 1..]);
      if step.None? || step.value <= 0 then None else ValuesOf(p[..slash], step.value, spec)
  }

  function PartsOf(parts: seq<string>, spec: FieldSpec): Option<set<int>>
    requires Usual(spec)
    decreases |parts|
  {
    if parts == [] then Some({})
    else
      var n := |parts| - 1;
      var before, last := PartsOf(parts[..n], spec), PartOf(parts[n], spec);
      if before.None? || last.None? then None else Some(before.value + last.value)
  }

  function FieldOf(raw: string, spec: FieldSpec): Option<set<int>>
    requires Usual(spec)
  {
    PartsOf(Split(raw, ','), spec)
  }

  /** The first `n` values read, if none is missing. */
  function AllRead<T>(read: nat -> Option<T>, n: nat): (r: Option<seq<T>>)
    ensures r.Some? ==> |r.value| == n
  {
    if n == 0 then Some([])
    else
      var before, last := AllRead(read, n - 1), read(n - 1);
      if before.None? || last.None? then None else Some(before.value + [last.value])
  }

  lemma OneMoreRead<T>(read: nat -> Option<T>, n: nat, sofar: seq<T>, last: T)
    requires AllRead(read, n) == Some(sofar) && read(n) == Some(last)
    ensures AllRead(read, n + 1) == Some(sofar + [last])
  {
  }

  lemma {:induction false} OneMissing<T>(read: nat -> Option<T>, n: nat, i: nat)
    requires i < n && read(i).None?
    ensures AllRead(read, n).None?
  {
    if i < n - 1 {
      OneMissing(read, n - 1, i);
    }
  }

  function Reader(words: seq<string>): nat -> Option<set<int>> {
    (i: nat) => if i < |words| then FieldOf(words[i], Spec(i)) else None
  }

  function Parsed(expr: string): Option<Expression> {
    var words := Fields(expr);
    if |words| != 5 then None
    else
      match AllRead(Reader(words), |words|)
      case None => None
      case Some(f) => Some(Expression(f[0], f[1], f[2], f[3], f[4]))
  }

  // ---------------------------------------------------------------------------
  // The parser itself.

  method Parse(expr: string) returns (r: Option<Expression>)
    ensures r == Parsed(expr)
  {
    var words := Fields(expr);
    if |words| != 5 {
      return None;
    }
    var parsed := ParseWords(words, Reader(words));
    if parsed.None? {
      return None;
    }
    var f := parsed.value;
    r := Some(Expression(f[0], f[1], f[2], f[3], f[4]));
  }

  /** Reading is left aside until a word is looked at. */
  ghost predicate IsReader(read: nat -> Option<set<int>>, words: seq<string>) {
    forall w {:trigger Reader(w)} :: w == words ==> read == Reader(w)
  }

  method ParseWords(words: seq<string>, ghost read: nat -> Option<set<int>>) returns (r: Option<seq<set<int>>>)
    requires IsReader(read, words)
    ensures r == AllRead(read, |words|)
  {
    var parsed: seq<set<int>> := [];
    for i := 0 to |words|
      invariant AllRead(read, i) == Some(parsed)
    {
      var p := ParseWord(words, i, read);
      if p.None? {
        OneMissing(read, |words|, i);
        return None;
      }
      OneMoreRead(read, i, parsed, p.value);
      parsed := parsed + [p.value];
    }
    r := Some(parsed);
  }

  method ParseWord(words: seq<string>, i: nat, ghost read: nat -> Option<set<int>>) returns (r: Option<set<int>>)
    requires i < |words| && IsReader(read, words)
    ensures r == read(i)
  {
    assert read == Reader(words);
    r := ParseField(words[i], Spec(i));
  }

  method ParseField(raw: string, spec: FieldSpec) returns (r: Option<set<int>>)
    requires Usual(spec)
    ensures r == FieldOf(raw, spec)
  {
    var parts := Split(raw, ',');
    var values: set<int> := {};
    for i := 0 to |parts|
      invariant PartsOf(parts[..i], spec) == Some(values)
    {
      assert parts[..i + 1][..i] == parts[..i];
      var p := ParsePart(parts[i], spec, values);
      if p.None? {
        SomePartFails(parts, spec, i);
        return None;
      }
      values := p.value;
    }
    assert parts[..|parts|] == parts;
    r := Some(values);
  }

  lemma {:induction false} SomePartFails(parts: seq<string>, spec: FieldSpec, i: nat)
    requires Usual(spec) && i < |parts| && PartOf(parts[i], spec).None?
    ensures PartsOf(parts, spec).None?
    decreases |parts|
  {
    if i < |parts| - 1 {
      SomePartFails(parts[..|parts| - 1], spec, i);
    }
  }

  /** Adds the values of a part to those the field already has. */
  method ParsePart(part: string, spec: FieldSpec, values: set<int>) returns (r: Option<set<int>>)
    requires Usual(spec)
    ensures r == if PartOf(part, spec).None? then None else Some(values + PartOf(part, spec).value)
  {
    var p := Aliased(Lower(part), spec.names);
    var step := 1;
    var slash := IndexOf(p, '/');
    if slash >= 0 {
      var s := Atoi(p[slash + 1..]);
      if s.None? || s.value <= 0 {
        return None;
      }
      step := s.value;
      p := p[..slash];
    }
    r := ParseValues(p, step, spec, values);
  }

  method ParseValues(p: string, step: int, spec: FieldSpec, values: set<int>) returns (r: Option<set<int>>)
    requires Usual(spec) && 0 < step <= MAX_INT
    ensures r == if ValuesOf(p, step, spec).None? then None else Some(values + ValuesOf(p, step, spec).value)
  {
    if p == "*" {
      var all := StepThrough(values, spec.min, spec.max, step);
      return Some(all);
    }
    var dash := IndexOf(p, '-');
    if dash >= 0 {
      var lo := Atoi(p[..dash]);
      if lo.None? {
        return None;
      }
      var hi := Atoi(p[dash + 1..]);
      if hi.None? {
        return None;
      }
      if lo.value < spec.min || hi.value > spec.max || lo.value > hi.value {
        return None;
      }
      var some := StepThrough(values, lo.value, hi.value, step);
      return Some(some);
    }
    var v := Atoi(p);
    if v.None? || v.value < spec.min || v.value > spec.max {
      return None;
    }
    r := Some(values + {v.value});
  }

  method StepThrough(values: set<int>, lo: int, hi: int, step: int) returns (r: set<int>)
    requires 0 < step <= MAX_INT && 0 <= lo && hi <= 100
    ensures r == values + Stepped(lo, hi, step)
  {
    r := values;
    var i := lo;
    while i <= hi
      invariant Reachable(i, step) && r + Stepped(i, hi, step) == values + Stepped(lo, hi, step)
      decreases Fuel(i, hi, step)
    {
      r := r + {i};
      i := Wrap(i + step);
    }
  }
}
