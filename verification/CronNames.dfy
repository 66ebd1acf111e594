/** internal/cron/cron.go, parseField and parsePart: lists, and the names of months and weekdays. */
module CronNames {
  import opened Wrappers
  import opened Numerals
  import opened Text
  import opened CronNext
  import opened CronParse
  import opened CronFields

  // ---------------------------------------------------------------------------
  // "a,b" allows what either part allows.

  lemma SplitAtComma(a: string, b: string)
    requires !Contains(a, ',')
    ensures Split(a + "," + b, ',') == [a] + Split(b, ',')
  {
    assert a + "," + b == a + [','] + b;
    IndexOfFirst(a, ',', b);
    assert (a + [','] + b)[..|a|] == a && (a + [','] + b)[|a| + 1..] == b;
  }

  function Either(a: Option<set<int>>, b: Option<set<int>>): Option<set<int>> {
    if a.None? || b.None? then None else Some(a.value + b.value)
  }

  lemma EitherIsAssociative(a: Option<set<int>>, b: Option<set<int>>, c: Option<set<int>>)
    ensures Either(Either(a, b), c) == Either(a, Either(b, c))
  {
    if a.Some? && b.Some? && c.Some? {
      assert a.value + b.value + c.value == a.value + (b.value + c.value);
    }
  }

  lemma LastPart(parts: seq<string>, last: string, spec: FieldSpec)
    requires Usual(spec)
    ensures PartsOf(parts + [last], spec) == Either(PartsOf(parts, spec), PartOf(last, spec))
  {
    assert (parts + [last])[..|parts|] == parts;
  }

  lemma NoParts(spec: FieldSpec)
    requires Usual(spec)
    ensures PartsOf([], spec) == Some({})
  {
  }

  lemma EitherNothing(a: Option<set<int>>)
    ensures Either(a, Some({})) == a
  {
    if a.Some? {
      assert a.value + {} == a.value;
    }
  }

  lemma {:induction false} FirstPart(a: string, parts: seq<string>, spec: FieldSpec)
    requires Usual(spec)
    ensures PartsOf([a] + parts, spec) == Either(PartOf(a, spec), PartsOf(parts, spec))
    decreases |parts|
  {
    if parts == [] {
      assert [a] + parts == [a];
      AddsToNothing(a, spec);
      NoParts(spec);
      EitherNothing(PartOf(a, spec));
    } else {
      var before, last := parts[..|parts| - 1], parts[|parts| - 1];
      assert parts == before + [last] && [a] + parts == [a] + before + [last];
      FirstPart(a, before, spec);
      LastPart([a] + before, last, spec);
      LastPart(before, last, spec);
      EitherIsAssociative(PartOf(a, spec), PartsOf(before, spec), PartOf(last, spec));
    }
  }

  /** A list allows what its parts allow together, and fails when one of them does. */
  lemma ListAllowsEither(a: string, b: string, spec: FieldSpec)
    requires Usual(spec) && !Contains(a, ',')
    ensures FieldOf(a, spec) == PartOf(a, spec)
    ensures FieldOf(a + "," + b, spec) == Either(FieldOf(a, spec), FieldOf(b, spec))
  {
    SplitAtComma(a, b);
    FirstPart(a, Split(b, ','), spec);
    IndexOfAbsent(a, ',');
    AddsToNothing(a, spec);
  }

  // ---------------------------------------------------------------------------
  // Names: three letters each, no two alike.

  ghost predicate Named(names: seq<Alias>) {
    Spelled(names) && Distinct(names)
  }

  ghost predicate Spelled(names: seq<Alias>) {
    forall i :: 0 <= i < |names| ==> |names[i].name| == 3 && SmallLetters(names[i].name)
  }

  ghost predicate Distinct(names: seq<Alias>) {
    forall i, j :: 0 <= i < j < |names| ==> names[i].name != names[j].name
  }

  predicate SmallLetters(s: string) {
    forall i :: 0 <= i < |s| ==> 'a' <= s[i] <= 'z'
  }

  lemma WeekdaysAreNamed()
    ensures Named(WEEKDAYS)
  {
  }

  lemma MonthsAreSpelled()
    ensures Spelled(MONTHS)
  {
  }

  /** The last two letters tell the names apart. */
  lemma MonthsAreDistinct()
    ensures Distinct(MONTHS)
  {
    forall i, j | 0 <= i < j < |MONTHS| ensures MONTHS[i].name != MONTHS[j].name {
      assert MONTHS[i].name[1] != MONTHS[j].name[1] || MONTHS[i].name[2] != MONTHS[j].name[2];
    }
  }

  lemma MonthsAreNamed()
    ensures Named(MONTHS)
  {
    MonthsAreSpelled();
    MonthsAreDistinct();
  }

  lemma OtherStays(s: string, was: string, now: string)
    requires |s| == 3 == |was| && s != was
    ensures ReplaceAll(s, was, now) == s
  {
    assert ReplaceAll(s[1..][1..][1..], was, now) == "";
    assert ReplaceAll(s[1..][1..], was, now) == s[1..][1..];
    assert ReplaceAll(s[1..], was, now) == s[1..];
  }

  lemma ItselfGoes(was: string, now: string)
    requires was != ""
    ensures ReplaceAll(was, was, now) == now
  {
    assert was[|was|..] == "";
  }

  lemma {:induction false} NameIsNumber(names: seq<Alias>, i: nat)
    requires Named(names) && i < |names|
    ensures forall k :: 0 <= k < |names| ==> names[k].name != ""
    ensures Aliased(names[i].name, names) == Itoa(names[i].value)
    decreases |names|
  {
    var rest := names[1..];
    if i == 0 {
      ItselfGoes(names[0].name, Itoa(names[0].value));
      PrintedNumber(names[0].value);
      PrintedIsNoLetter(Itoa(names[0].value));
      AliasedKeeps(Itoa(names[0].value), rest);
    } else {
      OtherStays(names[i].name, names[0].name, Itoa(names[0].value));
      NameIsNumber(rest, i - 1);
    }
  }

  lemma PrintedIsNoLetter(s: string)
    requires Printed(s)
    ensures !HasLetter(s)
  {
  }

  /** A part that reads, in lower case and with numbers for names, as a printed text, means what that text means. */
  lemma SamePart(s: string, t: string, spec: FieldSpec)
    requires Usual(spec) && Printed(t) && Aliased(Lower(s), spec.names) == t
    ensures PartOf(s, spec) == PartOf(t, spec)
  {
    PrintedIsPlain(t, spec);
  }

  lemma NoCommaInLower(s: string, c: char)
    requires !Contains(Lower(s), c) && !('A' <= c <= 'Z') && !('a' <= c <= 'z')
    ensures !Contains(s, c)
  {
    forall i | 0 <= i < |s| ensures s[i] != c {
      assert Lower(s)[i] != c;
    }
  }

  lemma NoLetterInside(s: string, c: char)
    requires SmallLetters(s) && !('a' <= c <= 'z')
    ensures !Contains(s, c)
  {
  }

  /** A name, in any case, allows its number. */
  lemma NameField(s: string, spec: FieldSpec, i: nat)
    requires Usual(spec) && Named(spec.names) && i < |spec.names| && Lower(s) == spec.names[i].name
    requires spec.min <= spec.names[i].value <= spec.max
    ensures FieldOf(s, spec) == Some({spec.names[i].value})
  {
    var n := spec.names[i].value;
    NameIsNumber(spec.names, i);
    PrintedNumber(n);
    SamePart(s, Itoa(n), spec);
    NoLetterInside(Lower(s), ',');
    NoCommaInLower(s, ',');
    ListAllowsEither(s, "", spec);
    NumberField(n, spec);
    OnePart(Itoa(n), spec);
  }

  // ---------------------------------------------------------------------------
  // Ranges of names.

  /** A text without `c` is no beginning of one that starts with `c`. */
  lemma StartsElsewhere(s: string, c: char, was: string)
    requires s != "" && s[0] == c && was != "" && was[0] != c
    ensures !(was <= s)
  {
  }

  /** A text without `c` that begins `x + [c] + y` begins `x`. */
  lemma StartsInside(x: string, c: char, y: string, was: string)
    requires was <= x + [c] + y && forall i :: 0 <= i < |was| ==> was[i] != c
    ensures was <= x
  {
    var z := x + [c] + y;
    assert z[|x|] == c && forall i :: 0 <= i < |was| ==> z[i] == was[i];
  }

  lemma ReplaceLater(s: string, was: string, now: string)
    requires s != "" && was != "" && !(was <= s)
    ensures ReplaceAll(s, was, now) == [s[0]] + ReplaceAll(s[1..], was, now)
  {
  }

  lemma ReplaceHere(s: string, was: string, now: string)
    requires was != "" && was <= s
    ensures ReplaceAll(s, was, now) == now + ReplaceAll(s[|was|..], was, now)
  {
  }

  lemma AroundLater(a: string, x: string, c: char, y: string)
    ensures a + (x + [c] + y) == (a + x) + [c] + y
  {
  }

  /** What replacing makes of `x + [c] + y`, when it does the same to both sides of `c`. */
  ghost predicate Apart(x: string, c: char, y: string, was: string, now: string)
    requires was != ""
  {
    ReplaceAll(x + [c] + y, was, now) == ReplaceAll(x, was, now) + [c] + ReplaceAll(y, was, now)
  }

  lemma ApartAtOnce(c: char, y: string, was: string, now: string)
    requires was != "" && was[0] != c
    ensures Apart("", c, y, was, now)
  {
    var s := "" + [c] + y;
    assert s == [c] + y && s[1..] == y;
    StartsElsewhere(s, c, was);
    ReplaceLater(s, was, now);
    assert ReplaceAll("", was, now) == "";
  }

  lemma ApartAfterName(x: string, c: char, y: string, was: string, now: string)
    requires was != "" && was <= x && Apart(x[|was|..], c, y, was, now)
    ensures Apart(x, c, y, was, now)
  {
    var s := x + [c] + y;
    assert was <= s && s[|was|..] == x[|was|..] + [c] + y;
    ReplaceHere(s, was, now);
    ReplaceHere(x, was, now);
    AroundLater(now, ReplaceAll(x[|was|..], was, now), c, ReplaceAll(y, was, now));
  }

  lemma ApartAfterLetter(x: string, c: char, y: string, was: string, now: string)
    requires was != "" && x != "" && !(was <= x + [c] + y) && Apart(x[1..], c, y, was, now)
    ensures Apart(x, c, y, was, now)
  {
    var s := x + [c] + y;
    assert s[1..] == x[1..] + [c] + y && !(was <= x);
    ReplaceLater(s, was, now);
    ReplaceLater(x, was, now);
    AroundLater([x[0]], ReplaceAll(x[1..], was, now), c, ReplaceAll(y, was, now));
  }

  lemma {:induction false} ReplaceAround(x: string, c: char, y: string, was: string, now: string)
    requires was != "" && forall i :: 0 <= i < |was| ==> was[i] != c
    ensures Apart(x, c, y, was, now)
    decreases |x|
  {
    if x == "" {
      ApartAtOnce(c, y, was, now);
    } else if was <= x + [c] + y {
      StartsInside(x, c, y, was);
      ReplaceAround(x[|was|..], c, y, was, now);
      ApartAfterName(x, c, y, was, now);
    } else {
      ReplaceAround(x[1..], c, y, was, now);
      ApartAfterLetter(x, c, y, was, now);
    }
  }

  lemma {:induction false} AliasedAround(x: string, c: char, y: string, names: seq<Alias>)
    requires forall i :: 0 <= i < |names| ==> names[i].name != ""
    requires forall i :: 0 <= i < |names| ==> !Contains(names[i].name, c)
    ensures Aliased(x + [c] + y, names) == Aliased(x, names) + [c] + Aliased(y, names)
    decreases |names|
  {
    if names != [] {
      var was, now := names[0].name, Itoa(names[0].value);
      ReplaceAround(x, c, y, was, now);
      AliasedAround(ReplaceAll(x, was, now), c, ReplaceAll(y, was, now), names[1..]);
    }
  }

  lemma LowerAround(a: string, b: string)
    ensures Lower(a + "-" + b) == Lower(a) + ['-'] + Lower(b)
  {
  }

  lemma RangeReads(t: string, lo: nat, hi: nat, spec: FieldSpec)
    requires Usual(spec) && spec.min <= lo <= hi <= spec.max && t == Itoa(lo) + "-" + Itoa(hi)
    ensures Printed(t) && PartOf(t, spec) == Some(Stepped(lo, hi, 1))
  {
    PrintedRange(lo, hi);
    OnePart(t, spec);
    PlainPart(t, spec);
    RangeValues(lo, hi, 1, spec);
  }

  lemma NamesBecome(a: string, b: string, names: seq<Alias>, i: nat, j: nat)
    requires Named(names) && i < |names| && j < |names| && Lower(a) == names[i].name && Lower(b) == names[j].name
    ensures forall k :: 0 <= k < |names| ==> names[k].name != ""
    ensures Aliased(Lower(a + "-" + b), names) == Itoa(names[i].value) + "-" + Itoa(names[j].value)
  {
    NameIsNumber(names, i);
    NameIsNumber(names, j);
    LowerAround(a, b);
    NamesHaveNo(names, '-');
    AliasedAround(Lower(a), '-', Lower(b), names);
  }

  lemma OneByOne(lo: nat, hi: nat)
    requires lo <= hi <= 100
    ensures forall v :: v in Stepped(lo, hi, 1) <==> lo <= v <= hi
  {
    forall v ensures v in Stepped(lo, hi, 1) <==> lo <= v <= hi {
      SteppedPlainly(lo, hi, 1, v);
    }
  }

  /** A range of names, in any case, allows the numbers from one to the other. */
  lemma NameRange(a: string, b: string, spec: FieldSpec, i: nat, j: nat)
    requires Usual(spec) && Named(spec.names) && i < |spec.names| && j < |spec.names|
    requires Lower(a) == spec.names[i].name && Lower(b) == spec.names[j].name
    requires spec.min <= spec.names[i].value <= spec.names[j].value <= spec.max
    ensures var field := FieldOf(a + "-" + b, spec);
      field.Some? && forall v :: v in field.value <==> spec.names[i].value <= v <= spec.names[j].value
  {
    var lo, hi, s := spec.names[i].value, spec.names[j].value, a + "-" + b;
    NamesBecome(a, b, spec.names, i, j);
    RangeReads(Itoa(lo) + "-" + Itoa(hi), lo, hi, spec);
    SamePart(s, Itoa(lo) + "-" + Itoa(hi), spec);
    NoCommaAround(a, b);
    ListAllowsEither(s, "", spec);
    OneByOne(lo, hi);
  }

  lemma NamesHaveNo(names: seq<Alias>, c: char)
    requires Named(names) && !('a' <= c <= 'z')
    ensures forall i :: 0 <= i < |names| ==> names[i].name != ""
    ensures forall i :: 0 <= i < |names| ==> !Contains(names[i].name, c)
  {
  }

  lemma NoCommaAround(a: string, b: string)
    requires SmallLetters(Lower(a)) && SmallLetters(Lower(b))
    ensures !Contains(a + "-" + b, ',')
  {
    NoLetterInside(Lower(a), ',');
    NoCommaInLower(a, ',');
    NoLetterInside(Lower(b), ',');
    NoCommaInLower(b, ',');
  }

  // ---------------------------------------------------------------------------
  // The tables.

  const MONTH_NAMES := ["jan", "feb", "mar", "apr", "may", "jun", "jul", "aug", "sep", "oct", "nov", "dec"]
  const WEEKDAY_NAMES := ["sun", "mon", "tue", "wed", "thu", "fri", "sat"]

  lemma MonthTable(i: nat)
    requires i < 12
    ensures |MONTHS| == 12 && MONTHS[i].name == MONTH_NAMES[i] && MONTHS[i].value == i + 1
  {
  }

  lemma WeekdayTable(i: nat)
    requires i < 7
    ensures |WEEKDAYS| == 7 && WEEKDAYS[i].name == WEEKDAY_NAMES[i] && WEEKDAYS[i].value == i
  {
  }

  /** The text is the name, each letter small or capital. */
  predicate Spells(s: string, name: string) {
    |s| == |name| && forall i :: 0 <= i < |s| ==> s[i] == name[i] || s[i] as int + 32 == name[i] as int
  }

  lemma SpellsIsLower(s: string, name: string)
    requires SmallLetters(name) && Spells(s, name)
    ensures Lower(s) == name
  {
  }

  /** The months are counted from January, 1. */
  lemma MonthField(s: string, i: nat, spec: FieldSpec)
    requires spec == MONTH && i < 12 && Spells(s, MONTH_NAMES[i])
    ensures Usual(spec) && FieldOf(s, spec) == Some({i + 1})
  {
    MonthsAreNamed();
    MonthTable(i);
    SpellsIsLower(s, spec.names[i].name);
    NameField(s, spec, i);
  }

  /** The days of the week are counted from Sunday, 0. */
  lemma WeekdayField(s: string, i: nat, spec: FieldSpec)
    requires spec == WEEKDAY && i < 7 && Spells(s, WEEKDAY_NAMES[i])
    ensures Usual(spec) && FieldOf(s, spec) == Some({i})
  {
    WeekdaysAreNamed();
    WeekdayTable(i);
    SpellsIsLower(s, spec.names[i].name);
    NameField(s, spec, i);
  }

  /** So "mon-fri" and the like allow the days from one to the other. */
  lemma WeekdayRange(a: string, b: string, i: nat, j: nat, spec: FieldSpec)
    requires spec == WEEKDAY && i <= j < 7
    requires Spells(a, WEEKDAY_NAMES[i]) && Spells(b, WEEKDAY_NAMES[j])
    ensures Usual(spec)
    ensures var field := FieldOf(a + "-" + b, spec); field.Some? && forall v :: v in field.value <==> i <= v <= j
  {
    WeekdaysAreNamed();
    WeekdayTable(i);
    WeekdayTable(j);
    SpellsIsLower(a, spec.names[i].name);
    SpellsIsLower(b, spec.names[j].name);
    NameRange(a, b, spec, i, j);
  }

  // ---------------------------------------------------------------------------
  // What is refused.

  /** A number is accepted exactly when the field has it. */
  lemma NumberFieldIff(n: nat, spec: FieldSpec)
    requires Usual(spec)
    ensures FieldOf(Itoa(n), spec) == if spec.min <= n <= spec.max then Some({n}) else None
  {
    if spec.min <= n <= spec.max {
      NumberField(n, spec);
    } else {
      PrintedNumber(n);
      PlainPart(Itoa(n), spec);
      IndexOfAbsent(Itoa(n), '-');
      NumberIsReadOrNot(n);
    }
  }

  /** A number too large for an int is not read at all. */
  lemma NumberIsReadOrNot(n: nat)
    ensures Atoi(Itoa(n)) == if n <= MAX_INT then Some(n) else None
  {
    ItoaIsDigits(n);
    var s := Itoa(n);
    assert IsDigit(s[0]);
  }

  /** A range is accepted exactly when the field has both ends and they are in order. */
  lemma RangeFieldIff(lo: nat, hi: nat, spec: FieldSpec)
    requires Usual(spec)
    ensures FieldOf(Itoa(lo) + "-" + Itoa(hi), spec) ==
      if spec.min <= lo <= hi <= spec.max then Some(Stepped(lo, hi, 1)) else None
  {
    PrintedRange(lo, hi);
    PlainPart(Itoa(lo) + "-" + Itoa(hi), spec);
    RangeParts(lo, hi);
    NumberIsReadOrNot(lo);
    NumberIsReadOrNot(hi);
  }

  /** A step must be positive. */
  lemma NoZeroStep(part: string, spec: FieldSpec)
    requires Usual(spec) && Printed(part) && !Contains(part, '/')
    ensures FieldOf(part + "/0", spec) == None
  {
    var s := part + "/0";
    OnePart(s, spec);
    PrintedIsPlain(s, spec);
    IndexOfFirst(part, '/', "0");
    assert s == part + ['/'] + "0" && s[|part| + 1..] == "0";
    assert Itoa(0) == "0";
    NumberIsReadOrNot(0);
  }
}
