/** How the fields the program itself prints are read back by its parser. */
module CronFields {
  import opened Wrappers
  import opened Numerals
  import opened Text
  import opened CronNext
  import opened CronParse

  /** The characters of printed fields: no letter, no blank, no comma. */
  predicate Printed(s: string) {
    forall i :: 0 <= i < |s| ==> IsDigit(s[i]) || s[i] == '*' || s[i] == '-' || s[i] == '/'
  }

  lemma PrintedJoin(a: string, b: string)
    requires Printed(a) && Printed(b)
    ensures Printed(a + b)
  {
  }

  lemma PrintedNumber(n: nat)
    ensures Printed(Itoa(n)) && !Contains(Itoa(n), '/') && !Contains(Itoa(n), '-') && Itoa(n) != "" && Itoa(n) != "*"
    ensures !IsDigit('*')
  {
    ItoaIsDigits(n);
    var s := Itoa(n);
    assert forall i :: 0 <= i < |s| ==> IsDigit(s[i]);
    assert s == "*" ==> IsDigit(s[0]);
  }

  lemma {:induction false} AliasedKeeps(s: string, names: seq<Alias>)
    requires forall i :: 0 <= i < |names| ==> names[i].name != "" && 'a' <= names[i].name[0] <= 'z'
    requires !HasLetter(s)
    ensures Aliased(s, names) == s
    decreases |names|
  {
    if names == [] {
    } else {
      NothingToReplace(s, names[0].name, Itoa(names[0].value));
      assert forall i :: 0 <= i < |names[1..]| ==> names[1..][i] == names[i + 1];
      AliasedKeeps(s, names[1..]);
    }
  }

  lemma PrintedIsPlain(s: string, spec: FieldSpec)
    requires Printed(s) && Usual(spec)
    ensures Aliased(Lower(s), spec.names) == s
  {
    assert !HasLetter(s);
    LowerKeeps(s);
    AliasedKeeps(s, spec.names);
  }

  /** A printed field has a single part. */
  lemma OnePart(s: string, spec: FieldSpec)
    requires Printed(s) && Usual(spec)
    ensures FieldOf(s, spec) == PartOf(s, spec)
  {
    assert !Contains(s, ',');
    IndexOfAbsent(s, ',');
    assert Split(s, ',') == [s];
    AddsToNothing(s, spec);
  }

  lemma AddsToNothing(s: string, spec: FieldSpec)
    requires Usual(spec)
    ensures PartsOf([s], spec) == PartOf(s, spec)
  {
    assert [s][..0] == [];
    assert PartsOf([], spec) == Some({});
    if PartOf(s, spec).Some? {
      assert {} + PartOf(s, spec).value == PartOf(s, spec).value;
    }
  }

  lemma SplitAtSlash(a: string, step: nat, spec: FieldSpec)
    requires Usual(spec) && Printed(a) && !Contains(a, '/') && 0 < step <= MAX_INT
    ensures Printed(a + "/" + Itoa(step))
    ensures FieldOf(a + "/" + Itoa(step), spec) == ValuesOf(a, step, spec)
  {
    var s := a + "/" + Itoa(step);
    PrintedNumber(step);
    PrintedJoin(a, "/");
    PrintedJoin(a + "/", Itoa(step));
    OnePart(s, spec);
    PrintedIsPlain(s, spec);
    IndexOfFirst(a, '/', Itoa(step));
    assert a + "/" + Itoa(step) == a + ['/'] + Itoa(step);
    assert s[..|a|] == a && s[|a| + 1..] == Itoa(step);
    AtoiOfItoa(step);
  }

  /** "n" allows n alone. */
  lemma NumberField(n: nat, spec: FieldSpec)
    requires Usual(spec) && spec.min <= n <= spec.max
    ensures FieldOf(Itoa(n), spec) == Some({n})
  {
    PrintedNumber(n);
    OnePart(Itoa(n), spec);
    PrintedIsPlain(Itoa(n), spec);
    IndexOfAbsent(Itoa(n), '/');
    IndexOfAbsent(Itoa(n), '-');
    AtoiOfItoa(n);
  }

  ghost predicate Allows(field: Option<set<int>>, lo: int, hi: int, step: int)
    requires step > 0
  {
    field.Some? && forall v :: 0 <= v ==> (v in field.value <==> Every(lo, hi, step, v))
  }

  lemma SmallStepsAreExact(lo: int, hi: int, step: int)
    requires 0 <= lo && hi <= 100 && 0 < step <= 1000
    ensures Allows(Some(Stepped(lo, hi, step)), lo, hi, step)
  {
    forall v ensures v in Stepped(lo, hi, step) <==> Every(lo, hi, step, v) {
      SteppedPlainly(lo, hi, step, v);
    }
  }

  lemma StarIsPrinted()
    ensures Printed("*") && !Contains("*", '/')
  {
  }

  lemma StarValues(step: int, spec: FieldSpec)
    requires Usual(spec) && 0 < step <= 1000
    ensures Allows(ValuesOf("*", step, spec), spec.min, spec.max, step)
  {
    SmallStepsAreExact(spec.min, spec.max, step);
  }

  /** A printed part without a step. */
  lemma PlainPart(s: string, spec: FieldSpec)
    requires Usual(spec) && Printed(s) && !Contains(s, '/')
    ensures FieldOf(s, spec) == ValuesOf(s, 1, spec)
  {
    OnePart(s, spec);
    PrintedIsPlain(s, spec);
    IndexOfAbsent(s, '/');
  }

  /** "*" allows every value. */
  lemma StarField(spec: FieldSpec)
    requires Usual(spec)
    ensures Allows(FieldOf("*", spec), spec.min, spec.max, 1)
  {
    StarIsPrinted();
    PlainPart("*", spec);
    StarValues(1, spec);
  }

  lemma JoinedPrefix(a: string, b: string, ab: string, c: string)
    requires ab == a + b
    ensures a + b + c == ab + c
  {
  }

  /** A star with a step allows every value at that distance from the least. */
  lemma StarStepField(step: nat, spec: FieldSpec)
    requires Usual(spec) && 0 < step <= 1000
    ensures Allows(FieldOf("*/" + Itoa(step), spec), spec.min, spec.max, step)
  {
    StarIsPrinted();
    SplitAtSlash("*", step, spec);
    StarValues(step, spec);
    JoinedPrefix("*", "/", "*/", Itoa(step));
  }

  lemma RangeValues(lo: nat, hi: nat, step: nat, spec: FieldSpec)
    requires Usual(spec) && spec.min <= lo <= hi <= spec.max && 0 < step <= MAX_INT
    ensures ValuesOf(Itoa(lo) + "-" + Itoa(hi), step, spec) == Some(Stepped(lo, hi, step))
  {
    var a, l := Itoa(lo) + "-" + Itoa(hi), |Itoa(lo)|;
    RangeParts(lo, hi);
    AtoiOfItoa(lo);
    AtoiOfItoa(hi);
  }

  lemma RangeParts(lo: nat, hi: nat)
    ensures var a := Itoa(lo) + "-" + Itoa(hi);
      var dash := IndexOf(a, '-');
      dash >= 0 && a[..dash] == Itoa(lo) && a[dash + 1..] == Itoa(hi) && a != "*"
  {
    PrintedNumber(lo);
    ItoaIsDigits(lo);
    IndexOfFirst(Itoa(lo), '-', Itoa(hi));
    assert Itoa(lo) + "-" + Itoa(hi) == Itoa(lo) + ['-'] + Itoa(hi);
    assert |Itoa(lo) + "-" + Itoa(hi)| > 1;
  }

  lemma PrintedRange(lo: nat, hi: nat)
    ensures Printed(Itoa(lo) + "-" + Itoa(hi)) && !Contains(Itoa(lo) + "-" + Itoa(hi), '/')
  {
    PrintedNumber(lo);
    PrintedNumber(hi);
    PrintedJoin(Itoa(lo), "-");
    PrintedJoin(Itoa(lo) + "-", Itoa(hi));
    NoSlashBetween(Itoa(lo), Itoa(hi));
  }

  /** "lo-hi/step" allows every value of the range at that distance from its start. */
  lemma RangeStepField(lo: nat, hi: nat, step: nat, spec: FieldSpec)
    requires Usual(spec) && spec.min <= lo <= hi <= spec.max && 0 < step <= 1000
    ensures Printed(Itoa(lo) + "-" + Itoa(hi) + "/" + Itoa(step))
    ensures Allows(FieldOf(Itoa(lo) + "-" + Itoa(hi) + "/" + Itoa(step), spec), lo, hi, step)
  {
    PrintedRange(lo, hi);
    SplitAtSlash(Itoa(lo) + "-" + Itoa(hi), step, spec);
    RangeValues(lo, hi, step, spec);
    SmallStepsAreExact(lo, hi, step);
  }

  /**
   For any step at all, the field allows just those values exactly when the loop's counter does not wrap into them.
   */
  lemma RangeStepFieldIff(lo: nat, hi: nat, step: nat, spec: FieldSpec)
    requires Usual(spec) && spec.min <= lo <= hi <= spec.max && 0 < step <= MAX_INT
    ensures var field := FieldOf(Itoa(lo) + "-" + Itoa(hi) + "/" + Itoa(step), spec);
      field.Some? &&
      ((forall v :: v >= spec.min ==> (v in field.value <==> Every(lo, hi, step, v))) <==> lo - Drop(step) < spec.min)
  {
    PrintedRange(lo, hi);
    SplitAtSlash(Itoa(lo) + "-" + Itoa(hi), step, spec);
    RangeValues(lo, hi, step, spec);
    SteppedIsEveryIff(lo, hi, step, spec.min);
  }

  /** A step after a single value is accepted and has no effect. */
  lemma StepOnOneValueIsIgnored(n: nat, step: nat, spec: FieldSpec)
    requires Usual(spec) && spec.min <= n <= spec.max && 0 < step <= MAX_INT
    ensures FieldOf(Itoa(n) + "/" + Itoa(step), spec) == Some({n})
  {
    PrintedNumber(n);
    SplitAtSlash(Itoa(n), step, spec);
    IndexOfAbsent(Itoa(n), '-');
    AtoiOfItoa(n);
  }

  lemma NoSlashBetween(a: string, b: string)
    requires !Contains(a, '/') && !Contains(b, '/')
    ensures !Contains(a + "-" + b, '/')
  {
  }

  // ---------------------------------------------------------------------------
  // Whole lines.

  function Line(a: string, b: string, c: string, d: string, e: string): string {
    a + " " + (b + " " + (c + " " + (d + " " + e)))
  }

  predicate Word(s: string) {
    s != "" && Printed(s)
  }

  lemma NumberIsWord(n: nat)
    ensures Word(Itoa(n))
  {
    PrintedNumber(n);
  }

  lemma WordFirst(word: string, rest: string, words: seq<string>)
    requires Word(word) && Fields(rest) == words
    ensures Fields(word + " " + rest) == [word] + words
  {
    FieldsCons(word, rest);
  }

  lemma TwoWords(d: string, e: string)
    requires Word(d) && Word(e)
    ensures Fields(d + " " + e) == [d, e]
  {
    FieldsOfWord(e);
    WordFirst(d, e, [e]);
  }

  lemma LineFields(a: string, b: string, c: string, d: string, e: string)
    requires Word(a) && Word(b) && Word(c) && Word(d) && Word(e)
    ensures Fields(Line(a, b, c, d, e)) == [a, b, c, d, e]
  {
    var three := d + " " + e;
    TwoWords(d, e);
    ThreeFirst(a, b, c, three, [d, e]);
  }

  lemma ThreeFirst(a: string, b: string, c: string, rest: string, words: seq<string>)
    requires Word(a) && Word(b) && Word(c) && Fields(rest) == words
    ensures Fields(a + " " + (b + " " + (c + " " + rest))) == [a, b, c] + words
  {
    WordFirst(c, rest, words);
    WordFirst(b, c + " " + rest, [c] + words);
    WordFirst(a, b + " " + (c + " " + rest), [b] + ([c] + words));
  }

  lemma FiveRead<T>(read: nat -> Option<T>, a: T, b: T, c: T, d: T, e: T)
    requires read(0) == Some(a) && read(1) == Some(b) && read(2) == Some(c) && read(3) == Some(d) && read(4) == Some(e)
    ensures AllRead(read, 5) == Some([a, b, c, d, e])
  {
    OneMoreRead(read, 0, [], a, [a]);
    OneMoreRead(read, 1, [a], b, [a, b]);
    OneMoreRead(read, 2, [a, b], c, [a, b, c]);
    OneMoreRead(read, 3, [a, b, c], d, [a, b, c, d]);
    OneMoreRead(read, 4, [a, b, c, d], e, [a, b, c, d, e]);
  }

  lemma OneMoreRead<T>(read: nat -> Option<T>, n: nat, before: seq<T>, last: T, after: seq<T>)
    requires AllRead(read, n) == Some(before) && read(n) == Some(last) && after == before + [last]
    ensures AllRead(read, n + 1) == Some(after)
  {
  }

  /** Word `i` of a line reads as the field of its position, with these values. */
  ghost predicate Reads(words: seq<string>, i: nat, values: set<int>)
    requires i < |words|
  {
    forall spec {:trigger FieldOf(words[i], spec)} :: spec == Spec(i) ==> FieldOf(words[i], spec) == Some(values)
  }

  lemma ReaderAt(words: seq<string>, i: nat, values: set<int>)
    requires i < |words| && Reads(words, i, values)
    ensures Reader(words)(i) == Some(values)
  {
  }

  lemma LineParses(a: string, b: string, c: string, d: string, e: string, x: Expression)
    requires Word(a) && Word(b) && Word(c) && Word(d) && Word(e)
    requires var words := [a, b, c, d, e];
      && Reads(words, 0, x.minute) && Reads(words, 1, x.hour) && Reads(words, 2, x.dom)
      && Reads(words, 3, x.month) && Reads(words, 4, x.dow)
    ensures Parsed(Line(a, b, c, d, e)) == Some(x)
  {
    LineFields(a, b, c, d, e);
    var words := [a, b, c, d, e];
    ReaderAt(words, 0, x.minute);
    ReaderAt(words, 1, x.hour);
    ReaderAt(words, 2, x.dom);
    ReaderAt(words, 3, x.month);
    ReaderAt(words, 4, x.dow);
    FiveRead(Reader(words), x.minute, x.hour, x.dom, x.month, x.dow);
  }

  // ---------------------------------------------------------------------------
  // The words of a line, read in place.

  ghost predicate AllowsAll(field: set<int>, lo: int, hi: int) {
    forall v :: lo <= v <= hi ==> v in field
  }

  lemma NumberReads(words: seq<string>, i: nat, n: nat)
    requires i < |words| && words[i] == Itoa(n) && Spec(i).min <= n <= Spec(i).max
    ensures Reads(words, i, {n})
  {
    NumberField(n, Spec(i));
  }

  lemma StarReads(words: seq<string>, i: nat) returns (values: set<int>)
    requires i < |words| && words[i] == "*"
    ensures Reads(words, i, values) && AllowsAll(values, Spec(i).min, Spec(i).max)
  {
    StarField(Spec(i));
    values := FieldOf("*", Spec(i)).value;
    forall v | Spec(i).min <= v <= Spec(i).max ensures v in values {
      assert Every(Spec(i).min, Spec(i).max, 1, v);
    }
  }

  lemma StarStepReads(words: seq<string>, i: nat, step: nat) returns (values: set<int>)
    requires i < |words| && words[i] == "*/" + Itoa(step) && 0 < step <= 1000
    ensures Reads(words, i, values) && Allows(Some(values), Spec(i).min, Spec(i).max, step)
  {
    StarStepField(step, Spec(i));
    values := FieldOf(words[i], Spec(i)).value;
  }

  lemma RangeStepReads(words: seq<string>, i: nat, lo: nat, hi: nat, step: nat) returns (values: set<int>)
    requires i < |words| && words[i] == Itoa(lo) + "-" + Itoa(hi) + "/" + Itoa(step) && 0 < step <= 1000
    requires Spec(i).min <= lo <= hi <= Spec(i).max
    ensures Reads(words, i, values) && Allows(Some(values), lo, hi, step)
  {
    RangeStepField(lo, hi, step, Spec(i));
    values := FieldOf(words[i], Spec(i)).value;
  }
}
