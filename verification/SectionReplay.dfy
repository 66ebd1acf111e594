/**
 The live prompt and its replay from the transcript. Between them stands the recorder
 (internal/session/recorder.go), which turns each change into one section record.
 */
module SectionReplay {
  import opened Wrappers
  import opened SlotOrder
  import opened Compose
  import opened LivePrompt
  import opened ReplaySpec

  function RecordOf(c: Change): Record {
    match c
    case Changed(name, slot, content) => SectionAdded(name, slot, content)
    case Removed(name) => SectionRemoved(name)
  }

  ghost function Heard(v: View, changes: seq<Change>): (w: View)
    requires Sound(v)
    ensures Sound(w)
    decreases |changes|
  {
    if changes == [] then v else Apply(Heard(v, changes[..|changes| - 1]), RecordOf(changes[|changes| - 1]))
  }

  /** The mutations of the prompt, each with the world as it stands afterwards. */
  datatype Op<!W> = UseOp(sec: Section<W>, now: W) | DropOp(name: string) | RefreshOp(name: string, now: W)

  /** Rendered text changes only through Use and Refresh. */
  ghost predicate Calm<W>(r: Registry<W>, op: Op<W>) {
    match op
    case UseOp(sec, now) => OnlyRerenders(r, sec.name, now)
    case DropOp(_) => true
    case RefreshOp(name, now) => OnlyRerenders(r, name, now)
  }

  ghost predicate KeepsSlot<W>(r: Registry<W>, op: Op<W>) {
    op.UseOp? && op.sec.name in r.sections ==> op.sec.slot == r.sections[op.sec.name].def.slot
  }

  function After<W>(r: Registry<W>, op: Op<W>): Registry<W> {
    match op
    case UseOp(sec, now) => Used(r.(world := now), sec)
    case DropOp(name) => Dropped(r, name)
    case RefreshOp(_, now) => r.(world := now)
  }

  function Emitted<W>(r: Registry<W>, op: Op<W>): seq<Change> {
    match op
    case UseOp(sec, now) => [Told(sec, now)]
    case DropOp(name) => if name in r.sections then [Removed(name)] else []
    case RefreshOp(name, now) => if name in r.sections then [Told(r.sections[name].def, now)] else []
  }

  /** The live registry, the replayed view, and the slots that sections registered since the attachment had then. */
  datatype Track<!W> = Track(live: Registry<W>, view: View, born: map<string, int>)

  ghost function Attached<W>(r: Registry<W>): Track<W>
    requires WellNumbered(r)
  {
    Track(r, Heard(EMPTY_VIEW, Introduction(r, Order(r))), map n | n in r.sections :: r.sections[n].def.slot)
  }

  ghost function Step<W>(t: Track<W>, op: Op<W>): Track<W>
    requires Sound(t.view)
  {
    Track(After(t.live, op), Heard(t.view, Emitted(t.live, op)), if op.DropOp? then t.born - {op.name} else t.born)
  }

  /** What every run keeps: same sections and texts on both sides, and numberings that agree as far as they can. */
  ghost predicate Linked<W>(t: Track<W>, counter0: nat, seq0: nat) {
    && WellNumbered(t.live) && Sound(t.view)
    && counter0 <= t.live.counter && seq0 <= t.view.seqNo
    && SameSections(t)
    && (forall n :: n in t.born ==> n in t.live.sections)
    && (forall n :: n in t.live.sections ==> Dated(t, counter0, seq0, n))
    && (forall m, n :: m in t.live.sections && n in t.live.sections ==> Paired(t, m, n))
  }

  /** The sections registered at the attachment are those with the early numbers, on both sides. */
  ghost predicate Dated<W>(t: Track<W>, counter0: nat, seq0: nat, n: string)
    requires n in t.live.sections && n in t.view.sections
  {
    && (n in t.born <==> t.live.sections[n].inserted <= counter0)
    && (n in t.born <==> t.view.sections[n].order <= seq0)
  }

  /** Later sections are numbered alike; those of the attachment by the render order they had then. */
  ghost predicate Paired<W>(t: Track<W>, m: string, n: string)
    requires m in t.live.sections && n in t.live.sections && m in t.view.sections && n in t.view.sections
  {
    && (m !in t.born && n !in t.born ==>
         (t.live.sections[m].inserted < t.live.sections[n].inserted <==>
           t.view.sections[m].order < t.view.sections[n].order))
    && (m in t.born && n in t.born ==>
         (t.view.sections[m].order < t.view.sections[n].order <==> Before(BornKey(t, m), BornKey(t, n))))
  }

  ghost predicate SameSections<W>(t: Track<W>) {
    && t.live.sections.Keys == t.view.sections.Keys
    && forall n :: n in t.live.sections ==>
         && t.view.sections[n].slot == t.live.sections[n].def.slot
         && t.view.sections[n].content == Rendered(t.live.sections[n].def, t.live.world)
  }

  ghost function BornKey<W>(t: Track<W>, n: string): Key
    requires n in t.born && n in t.live.sections
  {
    Key(t.born[n], t.live.sections[n].inserted)
  }

  // ---------------------------------------------------------------------------
  // Attachment: the introduction renumbers the sections by their render order.

  /** The first `i` names are known, each under its position, and nothing else is. */
  ghost predicate Knows<W>(v: View, r: Registry<W>, names: seq<string>, i: nat)
    requires i <= |names| && forall n :: n in names ==> n in r.sections
  {
    && v.seqNo == i
    && (forall n :: n in v.sections ==> 1 <= v.sections[n].order <= i && names[v.sections[n].order - 1] == n)
    && (forall j :: 0 <= j < i ==> names[j] in v.sections && v.sections[names[j]] == EntryOf(r, names[j], j + 1))
  }

  ghost function EntryOf<W>(r: Registry<W>, n: string, order: nat): SectionEntry
    requires n in r.sections
  {
    SectionEntry(r.sections[n].def.slot, Rendered(r.sections[n].def, r.world), order)
  }

  lemma AddedIsLast(v: View, name: string, slot: int, content: string)
    requires Sound(v) && name !in v.sections
    ensures Apply(v, SectionAdded(name, slot, content)) ==
      v.(seqNo := v.seqNo + 1, sections := v.sections[name := SectionEntry(slot, content, v.seqNo + 1)])
  {
  }

  lemma KnowsNext<W>(v: View, w: View, r: Registry<W>, names: seq<string>, i: nat)
    requires i < |names| && (forall n :: n in names ==> n in r.sections) && Knows(v, r, names, i)
    requires forall j :: 0 <= j < i ==> names[j] != names[i]
    requires w.seqNo == i + 1 && w.sections == v.sections[names[i] := EntryOf(r, names[i], i + 1)]
    ensures Knows(w, r, names, i + 1)
  {
    forall n | n in w.sections ensures 1 <= w.sections[n].order <= i + 1 && names[w.sections[n].order - 1] == n {
      assert n == names[i] || (n in v.sections && w.sections[n] == v.sections[n]);
    }
    forall j | 0 <= j < i + 1 ensures names[j] in w.sections && w.sections[names[j]] == EntryOf(r, names[j], j + 1) {
      assert j < i ==>
        names[j] != names[i] && names[j] in v.sections && v.sections[names[j]] == EntryOf(r, names[j], j + 1);
    }
  }

  lemma KnowsOneMore<W>(v: View, r: Registry<W>, names: seq<string>, i: nat)
    requires i < |names| && (forall n :: n in names ==> n in r.sections) && Knows(v, r, names, i) && Sound(v)
    requires forall j :: 0 <= j < i ==> names[j] != names[i]
    requires names[i] == r.sections[names[i]].def.name
    ensures Knows(Apply(v, RecordOf(Told(r.sections[names[i]].def, r.world))), r, names, i + 1)
  {
    var sec := r.sections[names[i]].def;
    assert names[i] !in v.sections;
    AddedIsLast(v, names[i], sec.slot, Rendered(sec, r.world));
    KnowsNext(v, Apply(v, RecordOf(Told(sec, r.world))), r, names, i);
  }

  lemma HeardMore(v: View, all: seq<Change>, i: nat)
    requires Sound(v) && 0 < i <= |all|
    ensures Heard(v, all[..i]) == Apply(Heard(v, all[..i - 1]), RecordOf(all[i - 1]))
  {
    assert all[..i][..i - 1] == all[..i - 1];
  }

  lemma {:induction false} IntroductionHeard<W>(r: Registry<W>, names: seq<string>, all: seq<Change>, i: nat)
    requires WellNumbered(r) && InOrder(names, Keys(r)) && i <= |names|
    requires (forall n :: n in names ==> n in r.sections) && all == Introduction(r, names)
    ensures Knows(Heard(EMPTY_VIEW, all[..i]), r, names, i)
  {
    if i == 0 {
      assert all[..0] == [];
    } else {
      IntroductionHeard(r, names, all, i - 1);
      HeardMore(EMPTY_VIEW, all, i);
      NextName(r, names, i - 1);
      KnowsOneMore(Heard(EMPTY_VIEW, all[..i - 1]), r, names, i - 1);
    }
  }

  lemma NextName<W>(r: Registry<W>, names: seq<string>, i: nat)
    requires WellNumbered(r) && InOrder(names, Keys(r)) && i < |names|
    requires forall n :: n in names ==> n in r.sections
    ensures names[i] in r.sections && r.sections[names[i]].def.name == names[i]
    ensures forall j :: 0 <= j < i ==> names[j] != names[i]
  {
    assert names[i] in names;
    DistinctNames(names, Keys(r));
  }

  lemma DistinctNames(names: seq<string>, keys: map<string, Key>)
    requires Sorted(names, keys)
    ensures forall i, j :: 0 <= i < j < |names| ==> names[i] != names[j]
  {
    forall i, j | 0 <= i < j < |names| ensures names[i] != names[j] {
      assert Before(keys[names[i]], keys[names[j]]);
    }
  }

  lemma OrderListsAll<W>(r: Registry<W>)
    requires WellNumbered(r)
    ensures forall n :: n in Order(r) <==> n in r.sections
  {
    forall n ensures n in Order(r) <==> n in r.sections {
      assert n in Keys(r) <==> n in r.sections;
    }
  }

  lemma IntroducedKnows<W>(r: Registry<W>, names: seq<string>, all: seq<Change>)
    requires WellNumbered(r) && InOrder(names, Keys(r))
    requires (forall n :: n in names ==> n in r.sections) && all == Introduction(r, names)
    ensures Knows(Heard(EMPTY_VIEW, all), r, names, |names|)
  {
    IntroductionHeard(r, names, all, |names|);
    assert all[..|names|] == all;
  }

  lemma AttachedKnowsAll<W>(r: Registry<W>)
    requires WellNumbered(r)
    ensures (forall n :: n in Order(r) <==> n in r.sections)
    ensures Knows(Attached(r).view, r, Order(r), |Order(r)|)
  {
    OrderListsAll(r);
    IntroducedKnows(r, Order(r), Introduction(r, Order(r)));
  }

  lemma KnownSections<W>(v: View, r: Registry<W>, names: seq<string>, n: string)
    requires (forall k :: k in names <==> k in r.sections) && Knows(v, r, names, |names|)
    ensures n in v.sections <==> n in r.sections
    ensures n in r.sections ==> v.sections[n] == EntryOf(r, n, v.sections[n].order)
  {
    if n in v.sections {
      assert names[v.sections[n].order - 1] in names;
    }
    if n in r.sections {
      var j :| 0 <= j < |names| && names[j] == n;
    }
  }

  lemma AttachedSections<W>(r: Registry<W>)
    requires WellNumbered(r)
    ensures SameSections(Attached(r))
  {
    AttachedKnowsAll(r);
    KnownIsSame(Attached(r), Order(r));
  }

  lemma KnownIsSame<W>(t: Track<W>, names: seq<string>)
    requires (forall k :: k in names <==> k in t.live.sections) && Knows(t.view, t.live, names, |names|)
    ensures SameSections(t)
  {
    forall n ensures n in t.view.sections <==> n in t.live.sections {
      KnownSections(t.view, t.live, names, n);
    }
    forall n | n in t.live.sections
      ensures t.view.sections[n].slot == t.live.sections[n].def.slot
      ensures t.view.sections[n].content == Rendered(t.live.sections[n].def, t.live.world)
    {
      KnownSections(t.view, t.live, names, n);
    }
  }

  lemma KnownOrders<W>(v: View, r: Registry<W>, names: seq<string>, m: string, n: string)
    requires (forall k :: k in names ==> k in r.sections) && Knows(v, r, names, |names|) && Sorted(names, Keys(r))
    requires Ranked(Keys(r)) && m in v.sections && n in v.sections && m in r.sections && n in r.sections
    ensures v.sections[m].order < v.sections[n].order <==> Before(Keys(r)[m], Keys(r)[n])
    ensures v.sections[m].order <= v.seqNo
  {
    KnownAt(v, r, names, m);
    KnownAt(v, r, names, n);
    SortedAt(names, Keys(r), v.sections[m].order - 1, v.sections[n].order - 1);
  }

  lemma KnownAt<W>(v: View, r: Registry<W>, names: seq<string>, n: string)
    requires (forall k :: k in names ==> k in r.sections) && Knows(v, r, names, |names|) && n in v.sections
    ensures 1 <= v.sections[n].order <= |names| == v.seqNo && names[v.sections[n].order - 1] == n
  {
  }

  lemma AttachedOrders<W>(r: Registry<W>, m: string, n: string)
    requires WellNumbered(r) && m in r.sections && n in r.sections
    requires m in Attached(r).view.sections && n in Attached(r).view.sections
    ensures Attached(r).view.sections[m].order < Attached(r).view.sections[n].order <==> Before(Keys(r)[m], Keys(r)[n])
    ensures Attached(r).view.sections[m].order <= Attached(r).view.seqNo
  {
    AttachedKnowsAll(r);
    KnownOrders(Attached(r).view, r, Order(r), m, n);
  }

  lemma AttachedIsLinked<W>(r: Registry<W>)
    requires WellNumbered(r)
    ensures Linked(Attached(r), r.counter, Attached(r).view.seqNo)
  {
    var t := Attached(r);
    AttachedSections(r);
    forall n | n in r.sections ensures Dated(t, r.counter, t.view.seqNo, n) {
      AttachedOrders(r, n, n);
    }
    forall m, n | m in r.sections && n in r.sections ensures Paired(t, m, n) {
      AttachedOrders(r, m, n);
      assert BornKey(t, m) == Keys(r)[m] && BornKey(t, n) == Keys(r)[n];
    }
  }

  // ---------------------------------------------------------------------------
  // Every mutation keeps the link.

  lemma HeardOne(v: View, c: Change)
    requires Sound(v)
    ensures Heard(v, [c]) == Apply(v, RecordOf(c)) && Heard(v, []) == v
  {
    assert [c][..0] == [];
    assert Heard(v, []) == v;
  }

  lemma UseKeepsSections<W>(t: Track<W>, sec: Section<W>, now: W)
    requires Sound(t.view) && SameSections(t) && OnlyRerenders(t.live, sec.name, now)
    ensures SameSections(Step(t, UseOp(sec, now)))
  {
    HeardOne(t.view, Told(sec, now));
    var u := Step(t, UseOp(sec, now));
    forall n | n in u.live.sections
      ensures n in u.view.sections && u.view.sections[n].slot == u.live.sections[n].def.slot
      ensures u.view.sections[n].content == Rendered(u.live.sections[n].def, now)
    {
      assert n == sec.name || n in t.live.sections;
    }
  }

  lemma RefreshKeepsSections<W>(t: Track<W>, name: string, now: W)
    requires WellNumbered(t.live) && Sound(t.view) && SameSections(t) && OnlyRerenders(t.live, name, now)
    ensures SameSections(Step(t, RefreshOp(name, now)))
  {
    HeardOne(t.view, Removed(name));
    if name in t.live.sections {
      HeardOne(t.view, Told(t.live.sections[name].def, now));
    }
  }

  lemma DropKeepsSections<W>(t: Track<W>, name: string)
    requires Sound(t.view) && SameSections(t)
    ensures SameSections(Step(t, DropOp(name)))
  {
    HeardOne(t.view, Removed(name));
  }

  lemma StepKeepsSections<W>(t: Track<W>, op: Op<W>)
    requires WellNumbered(t.live) && Sound(t.view) && SameSections(t) && Calm(t.live, op)
    ensures SameSections(Step(t, op))
  {
    match op
    case UseOp(sec, now) => UseKeepsSections(t, sec, now);
    case DropOp(name) => DropKeepsSections(t, name);
    case RefreshOp(name, now) => RefreshKeepsSections(t, name, now);
  }

  lemma StepStaysNumbered<W>(r: Registry<W>, op: Op<W>)
    requires WellNumbered(r)
    ensures WellNumbered(After(r, op))
  {
    match op
    case UseOp(sec, now) => StaysNumbered(r.(world := now), sec, "");
    case DropOp(name) => StaysNumbered(r, Section(0, "", None), name);
    case RefreshOp(_, _) =>
  }

  /** What happens to one section's numbers: they stay, or the section is new and gets the next ones on both sides. */
  ghost predicate NumbersFollow<W>(t: Track<W>, u: Track<W>, n: string) {
    n in u.live.sections && n in u.view.sections ==>
      if n in t.live.sections && n in t.view.sections then
        && u.live.sections[n].inserted == t.live.sections[n].inserted
        && u.view.sections[n].order == t.view.sections[n].order
        && (n in u.born <==> n in t.born)
      else
        u.live.sections[n].inserted == t.live.counter + 1 && u.view.sections[n].order == t.view.seqNo + 1 &&
          (n in u.born <==> n in t.born)
  }

  lemma UseKeepsNumbers<W>(t: Track<W>, sec: Section<W>, now: W, n: string)
    requires Sound(t.view) && SameSections(t)
    ensures NumbersFollow(t, Step(t, UseOp(sec, now)), n)
    ensures t.live.counter <= Step(t, UseOp(sec, now)).live.counter &&
      t.view.seqNo <= Step(t, UseOp(sec, now)).view.seqNo
  {
    HeardOne(t.view, Told(sec, now));
  }

  lemma RefreshKeepsNumbers<W>(t: Track<W>, name: string, now: W, n: string)
    requires Sound(t.view) && SameSections(t)
    ensures NumbersFollow(t, Step(t, RefreshOp(name, now)), n)
    ensures t.live.counter <= Step(t, RefreshOp(name, now)).live.counter
    ensures t.view.seqNo <= Step(t, RefreshOp(name, now)).view.seqNo
  {
    HeardOne(t.view, Removed(name));
    if name in t.live.sections {
      HeardOne(t.view, Told(t.live.sections[name].def, now));
    }
  }

  lemma StepKeepsNumbers<W>(t: Track<W>, op: Op<W>, n: string)
    requires Sound(t.view) && SameSections(t)
    ensures NumbersFollow(t, Step(t, op), n)
    ensures t.live.counter <= Step(t, op).live.counter && t.view.seqNo <= Step(t, op).view.seqNo
  {
    match op
    case UseOp(sec, now) => UseKeepsNumbers(t, sec, now, n);
    case DropOp(name) => HeardOne(t.view, Removed(name));
    case RefreshOp(name, now) => RefreshKeepsNumbers(t, name, now, n);
  }

  /** At most one section is new after a step. */
  lemma OneNewSection<W>(t: Track<W>, op: Op<W>, m: string, n: string)
    requires Sound(t.view) && m in Step(t, op).live.sections && n in Step(t, op).live.sections
    requires m !in t.live.sections && n !in t.live.sections
    ensures m == n
  {
  }

  /** Numbers that follow keep a pair of sections linked, if at most one of the two is new. */
  lemma FollowersStayLinked<W>(t: Track<W>, u: Track<W>, counter0: nat, seq0: nat, m: string, n: string)
    requires Linked(t, counter0, seq0) && NumbersFollow(t, u, m) && NumbersFollow(t, u, n)
    requires m in u.live.sections && m in u.view.sections && n in u.live.sections && n in u.view.sections
    requires m !in t.live.sections && n !in t.live.sections ==> m == n
    requires forall k :: k in u.born ==> k in t.born && u.born[k] == t.born[k]
    ensures Dated(u, counter0, seq0, m) && Paired(u, m, n)
  {
    if m in t.live.sections && n in t.live.sections {
      assert Paired(t, m, n);
    }
    assert m in t.live.sections ==> Dated(t, counter0, seq0, m);
    assert n in t.live.sections ==> Dated(t, counter0, seq0, n);
  }

  lemma StepStaysLinked<W>(t: Track<W>, op: Op<W>, counter0: nat, seq0: nat, m: string, n: string)
    requires Linked(t, counter0, seq0) && SameSections(Step(t, op))
    requires m in Step(t, op).live.sections && n in Step(t, op).live.sections
    ensures Dated(Step(t, op), counter0, seq0, m) && Paired(Step(t, op), m, n)
  {
    StepKeepsNumbers(t, op, m);
    StepKeepsNumbers(t, op, n);
    if m !in t.live.sections && n !in t.live.sections {
      OneNewSection(t, op, m, n);
    }
    FollowersStayLinked(t, Step(t, op), counter0, seq0, m, n);
  }

  lemma StepKeepsLink<W>(t: Track<W>, op: Op<W>, counter0: nat, seq0: nat)
    requires Linked(t, counter0, seq0) && Calm(t.live, op)
    ensures Linked(Step(t, op), counter0, seq0)
  {
    StepStaysNumbered(t.live, op);
    StepKeepsSections(t, op);
    StepKeepsNumbers(t, op, "");
    var u := Step(t, op);
    forall m, n | m in u.live.sections && n in u.live.sections ensures Dated(u, counter0, seq0, m) && Paired(u, m, n) {
      StepStaysLinked(t, op, counter0, seq0, m, n);
    }
    forall n | n in u.live.sections ensures Dated(u, counter0, seq0, n) {
      assert Paired(u, n, n);
    }
  }

  // ---------------------------------------------------------------------------
  // Whole runs.

  ghost function Tracked<W>(r: Registry<W>, ops: seq<Op<W>>): (t: Track<W>)
    requires WellNumbered(r)
    ensures Sound(t.view)
    decreases |ops|
  {
    if ops == [] then Attached(r) else Step(Tracked(r, ops[..|ops| - 1]), ops[|ops| - 1])
  }

  ghost predicate CalmRun<W>(r: Registry<W>, ops: seq<Op<W>>)
    requires WellNumbered(r)
    decreases |ops|
  {
    ops == [] || (CalmRun(r, ops[..|ops| - 1]) && Calm(Tracked(r, ops[..|ops| - 1]).live, ops[|ops| - 1]))
  }

  lemma {:induction false} RunKeepsLink<W>(r: Registry<W>, ops: seq<Op<W>>)
    requires WellNumbered(r) && CalmRun(r, ops)
    ensures Linked(Tracked(r, ops), r.counter, Attached(r).view.seqNo)
    decreases |ops|
  {
    if ops == [] {
      AttachedIsLinked(r);
    } else {
      RunKeepsLink(r, ops[..|ops| - 1]);
      StepKeepsLink(Tracked(r, ops[..|ops| - 1]), ops[|ops| - 1], r.counter, Attached(r).view.seqNo);
    }
  }

  /**
   Two sections registered at the attachment, inserted in one order but in slots of the other, that now share a slot.
   */
  ghost predicate Crossed<W>(t: Track<W>, m: string, n: string) {
    && m in t.born && n in t.born && m in t.live.sections && n in t.live.sections
    && t.live.sections[m].def.slot == t.live.sections[n].def.slot
    && t.born[m] < t.born[n] && t.live.sections[m].inserted > t.live.sections[n].inserted
  }

  lemma LinkedKeysAgree<W>(t: Track<W>, counter0: nat, seq0: nat)
    requires Linked(t, counter0, seq0) && forall m, n :: !Crossed(t, m, n)
    ensures Agree(Keys(t.live), SectionKeys(t.view.sections))
  {
    var a, b := Keys(t.live), SectionKeys(t.view.sections);
    forall m, n | m in a && n in a && Before(a[m], a[n]) ensures Before(b[m], b[n]) {
      assert Paired(t, m, n) && Dated(t, counter0, seq0, m) && Dated(t, counter0, seq0, n);
      assert !Crossed(t, n, m) && !Crossed(t, m, n);
    }
  }

  /** Replay lists the sections in the prompt's order exactly when no two sections have crossed. */
  lemma ReplayOrderIffUncrossed<W>(r: Registry<W>, ops: seq<Op<W>>)
    requires WellNumbered(r) && CalmRun(r, ops)
    ensures var t := Tracked(r, ops);
      WellNumbered(t.live) && (SectionOrder(t.view) == Order(t.live) <==> forall m, n :: !Crossed(t, m, n))
  {
    RunKeepsLink(r, ops);
    var t := Tracked(r, ops);
    var a, b := Keys(t.live), SectionKeys(t.view.sections);
    if m, n :| Crossed(t, m, n) {
      assert Paired(t, m, n) && Before(BornKey(t, m), BornKey(t, n));
      assert Before(a[n], a[m]) && Before(b[m], b[n]);
      DifferentOrder(a, b, n, m);
    } else {
      LinkedKeysAgree(t, r.counter, Attached(r).view.seqNo);
      SameOrder(a, b);
    }
  }

  /** The sections that have text: the others leave no trace in a prompt. */
  ghost function Shown<W>(t: Track<W>): set<string> {
    set n | n in t.live.sections && Rendered(t.live.sections[n].def, t.live.world) != ""
  }

  lemma ShownKeysAgree<W>(t: Track<W>, counter0: nat, seq0: nat)
    requires Linked(t, counter0, seq0)
    requires forall m, n :: m in Shown(t) && n in Shown(t) ==> !Crossed(t, m, n)
    ensures Only(Keys(t.live), Shown(t)).Keys == Only(SectionKeys(t.view.sections), Shown(t)).Keys
    ensures Agree(Only(Keys(t.live), Shown(t)), Only(SectionKeys(t.view.sections), Shown(t)))
  {
    var a, b := Only(Keys(t.live), Shown(t)), Only(SectionKeys(t.view.sections), Shown(t));
    forall m, n | m in a && n in a && Before(a[m], a[n]) ensures Before(b[m], b[n]) {
      assert Paired(t, m, n) && Dated(t, counter0, seq0, m) && Dated(t, counter0, seq0, n);
      assert !Crossed(t, n, m) && !Crossed(t, m, n);
    }
  }

  lemma CrossedKeys<W>(t: Track<W>, counter0: nat, seq0: nat, m: string, n: string)
    requires Linked(t, counter0, seq0) && Crossed(t, m, n) && m in Shown(t) && n in Shown(t)
    ensures var a, b := Only(Keys(t.live), Shown(t)), Only(SectionKeys(t.view.sections), Shown(t));
      m in a && n in a && a.Keys == b.Keys && Before(a[n], a[m]) && Before(b[m], b[n])
  {
    assert Paired(t, m, n) && Before(BornKey(t, m), BornKey(t, n));
  }

  /** Replay lists the sections with text in the prompt's order exactly when no two of them have crossed. */
  lemma PromptOrderIffUncrossed<W>(r: Registry<W>, ops: seq<Op<W>>)
    requires WellNumbered(r) && CalmRun(r, ops)
    ensures WellNumbered(Tracked(r, ops).live)
    ensures var t := Tracked(r, ops);
      Visible(SectionOrder(t.view), Shown(t)) == Visible(Order(t.live), Shown(t)) <==>
      forall m, n :: m in Shown(t) && n in Shown(t) ==> !Crossed(t, m, n)
  {
    RunKeepsLink(r, ops);
    var t := Tracked(r, ops);
    var a, b := Only(Keys(t.live), Shown(t)), Only(SectionKeys(t.view.sections), Shown(t));
    VisibleOrder(Keys(t.live), Shown(t));
    VisibleOrder(SectionKeys(t.view.sections), Shown(t));
    if m, n :| m in Shown(t) && n in Shown(t) && Crossed(t, m, n) {
      CrossedKeys(t, r.counter, Attached(r).view.seqNo, m, n);
      DifferentOrder(a, b, n, m);
    } else {
      ShownKeysAgree(t, r.counter, Attached(r).view.seqNo);
      SameOrder(a, b);
    }
  }

  /**
   So, whatever the texts of these sections, the two sides compose the same text, if and only if no two of them have
   crossed: a crossed pair shows in the composed text for some texts, though not for all.
   */
  lemma PromptTextsIffUncrossed<W>(r: Registry<W>, ops: seq<Op<W>>)
    requires WellNumbered(r) && CalmRun(r, ops)
    ensures WellNumbered(Tracked(r, ops).live)
    ensures var t := Tracked(r, ops);
      var replayed, live := Visible(SectionOrder(t.view), Shown(t)), Visible(Order(t.live), Shown(t));
      (forall text :: Wordy(text) ==> Composed(Worded(replayed, text)) == Composed(Worded(live, text))) <==>
      forall m, n :: m in Shown(t) && n in Shown(t) ==> !Crossed(t, m, n)
  {
    PromptOrderIffUncrossed(r, ops);
    var t := Tracked(r, ops);
    SameNamesIffSameTexts(Visible(SectionOrder(t.view), Shown(t)), Visible(Order(t.live), Shown(t)));
  }

  lemma {:induction false} VisibleTexts(sections: map<string, SectionEntry>, names: seq<string>, shown: set<string>)
    requires forall n :: n in names ==> n in sections && (n in shown <==> sections[n].content != "")
    ensures forall n :: n in Visible(names, shown) ==> n in names
    ensures NonEmpty(Contents(sections, names)) == Contents(sections, Visible(names, shown))
    decreases |names|
  {
    if names == [] {
    } else {
      var n := |names| - 1;
      assert names[n] in names && names == names[..n] + [names[n]];
      VisibleTexts(sections, names[..n], shown);
      assert Contents(sections, names)[..n] == Contents(sections, names[..n]);
    }
  }

  /** And then it composes exactly the prompt the model receives. */
  lemma ReplayComposesPrompt<W>(r: Registry<W>, ops: seq<Op<W>>)
    requires WellNumbered(r) && CalmRun(r, ops)
    requires var t := Tracked(r, ops); forall m, n :: m in Shown(t) && n in Shown(t) ==> !Crossed(t, m, n)
    ensures WellNumbered(Tracked(r, ops).live)
    ensures ComposedSystem(Tracked(r, ops).view) == FromScratch(Tracked(r, ops).live)
  {
    RunKeepsLink(r, ops);
    PromptOrderIffUncrossed(r, ops);
    var t := Tracked(r, ops);
    var live, replayed := Order(t.live), SectionOrder(t.view);
    assert forall n :: n in live ==> n in Keys(t.live);
    assert forall n :: n in replayed ==> n in SectionKeys(t.view.sections);
    SameTexts(t, live);
    VisibleTexts(t.view.sections, live, Shown(t));
    VisibleTexts(t.view.sections, replayed, Shown(t));
  }

  lemma SameTexts<W>(t: Track<W>, names: seq<string>)
    requires SameSections(t) && forall n :: n in names ==> n in t.live.sections
    ensures Contents(t.view.sections, names) == Texts(t.live, names)
  {
    forall i | 0 <= i < |names|
      ensures names[i] in t.view.sections &&
        t.view.sections[names[i]].content == Rendered(t.live.sections[names[i]].def, t.live.world)
    {
      assert names[i] in names;
    }
  }

  // ---------------------------------------------------------------------------
  // A caller can rule crossing out: replacing a live section keeps its slot.

  ghost predicate SlotsKept<W>(r: Registry<W>, ops: seq<Op<W>>)
    requires WellNumbered(r)
    decreases |ops|
  {
    ops == [] || (SlotsKept(r, ops[..|ops| - 1]) && KeepsSlot(Tracked(r, ops[..|ops| - 1]).live, ops[|ops| - 1]))
  }

  ghost predicate InBornSlots<W>(t: Track<W>) {
    forall n :: n in t.born ==> n in t.live.sections && t.born[n] == t.live.sections[n].def.slot
  }

  lemma StepKeepsBornSlots<W>(t: Track<W>, op: Op<W>)
    requires Sound(t.view) && InBornSlots(t) && KeepsSlot(t.live, op)
    ensures InBornSlots(Step(t, op))
  {
    var u := Step(t, op);
    forall n | n in u.born ensures n in u.live.sections && u.born[n] == u.live.sections[n].def.slot {
      assert n in t.born;
    }
  }

  lemma {:induction false} BornSlotsStay<W>(r: Registry<W>, ops: seq<Op<W>>)
    requires WellNumbered(r) && SlotsKept(r, ops)
    ensures InBornSlots(Tracked(r, ops))
    decreases |ops|
  {
    if ops == [] {
    } else {
      BornSlotsStay(r, ops[..|ops| - 1]);
      StepKeepsBornSlots(Tracked(r, ops[..|ops| - 1]), ops[|ops| - 1]);
    }
  }

  lemma ReplayAgreesWithPrompt<W>(r: Registry<W>, ops: seq<Op<W>>)
    requires WellNumbered(r) && CalmRun(r, ops) && SlotsKept(r, ops)
    ensures WellNumbered(Tracked(r, ops).live)
    ensures ComposedSystem(Tracked(r, ops).view) == FromScratch(Tracked(r, ops).live)
  {
    BornSlotsStay(r, ops);
    ReplayComposesPrompt(r, ops);
  }

  // ---------------------------------------------------------------------------
  // Without that discipline the two sides can part.

  /** A prompt with section "a" in slot 1 and section "b" in slot 0, inserted in this order. */
  function TwoSections(): Registry<()> {
    var a := Section(1, "a", Some((_: ()) => "A"));
    var b := Section(0, "b", Some((_: ()) => "B"));
    Registry(map["a" := Live(a, 1), "b" := Live(b, 2)], 2, ())
  }

  function MoveB(): Op<()> {
    UseOp(Section(1, "b", Some((_: ()) => "B")), ())
  }

  /**
   Moving "b" into the slot of "a" makes them cross: the prompt now has "A" first, what replay composes has "B" first.
   */
  lemma MovedSectionsCross()
    ensures WellNumbered(TwoSections()) && CalmRun(TwoSections(), [MoveB()])
    ensures WellNumbered(Tracked(TwoSections(), [MoveB()]).live)
    ensures FromScratch(Tracked(TwoSections(), [MoveB()]).live) == "A\n\nB"
    ensures ComposedSystem(Tracked(TwoSections(), [MoveB()]).view) == "B\n\nA"
  {
    OneCalmStep(TwoSections(), MoveB());
    RunKeepsLink(TwoSections(), [MoveB()]);
    var t := Tracked(TwoSections(), [MoveB()]);
    MovedLive(t);
    MovedPrompts(t);
  }

  lemma MovedPrompts(t: Track<()>)
    requires Moved(t) && WellNumbered(t.live) && Numbered(t.view) && SameSections(t)
    requires t.live.sections.Keys == {"a", "b"} && Paired(t, "b", "a")
    ensures FromScratch(t.live) == "A\n\nB" && ComposedSystem(t.view) == "B\n\nA"
  {
    MovedLive(t);
    MovedView(t);
    MovedOrders(t.live, t.view);
    MovedTexts(t);
    MovedComposed(t.live, t.view);
  }

  lemma MovedComposed(live: Registry<()>, view: View)
    requires WellNumbered(live) && Order(live) == ["a", "b"] && live.sections.Keys == {"a", "b"}
    requires Numbered(view) && SectionOrder(view) == ["b", "a"] && view.sections.Keys == {"a", "b"}
    requires Texts(live, ["a", "b"]) == ["A", "B"] && Contents(view.sections, ["b", "a"]) == ["B", "A"]
    ensures FromScratch(live) == "A\n\nB" && ComposedSystem(view) == "B\n\nA"
  {
    LiveComposed(live);
    ViewComposed(view);
  }

  lemma LiveComposed(live: Registry<()>)
    requires WellNumbered(live) && Order(live) == ["a", "b"] && live.sections.Keys == {"a", "b"}
    requires Texts(live, ["a", "b"]) == ["A", "B"]
    ensures FromScratch(live) == "A\n\nB"
  {
    TwoLetters("A", "B", "A\n\nB");
  }

  lemma ViewComposed(view: View)
    requires Numbered(view) && SectionOrder(view) == ["b", "a"] && view.sections.Keys == {"a", "b"}
    requires Contents(view.sections, ["b", "a"]) == ["B", "A"]
    ensures ComposedSystem(view) == "B\n\nA"
  {
    TwoLetters("B", "A", "B\n\nA");
  }

  lemma TwoLetters(first: string, second: string, joined: string)
    requires first != "" && second != "" && joined == first + "\n\n" + second
    ensures Composed([first, second]) == joined
  {
    TwoTexts(first, second);
  }

  ghost predicate Moved(t: Track<()>) {
    && t.live == After(TwoSections(), MoveB())
    && t.born == map n | n in TwoSections().sections :: TwoSections().sections[n].def.slot
  }

  lemma MovedOrders(live: Registry<()>, view: View)
    requires WellNumbered(live) && Numbered(view) && Keys(live) == map["a" := Key(1, 1), "b" := Key(1, 2)]
    requires var keys := SectionKeys(view.sections); keys.Keys == {"b", "a"} && Before(keys["b"], keys["a"])
    ensures Order(live) == ["a", "b"] && SectionOrder(view) == ["b", "a"]
  {
    TwoInOrder(Keys(live), "a", "b");
    TwoInOrder(SectionKeys(view.sections), "b", "a");
  }

  lemma MovedLive(t: Track<()>)
    requires Moved(t)
    ensures t.live.sections.Keys == {"a", "b"} == t.born.Keys
    ensures Keys(t.live) == map["a" := Key(1, 1), "b" := Key(1, 2)]
    ensures BornKey(t, "a") == Key(1, 1) && BornKey(t, "b") == Key(0, 2)
  {
    assert "a" in TwoSections().sections && "b" in TwoSections().sections;
  }

  lemma MovedView(t: Track<()>)
    requires SameSections(t) && t.live.sections.Keys == {"a", "b"} == t.born.Keys
    requires Keys(t.live) == map["a" := Key(1, 1), "b" := Key(1, 2)] && Paired(t, "b", "a")
    requires BornKey(t, "a") == Key(1, 1) && BornKey(t, "b") == Key(0, 2)
    ensures var keys := SectionKeys(t.view.sections); keys.Keys == {"b", "a"} && Before(keys["b"], keys["a"])
  {
    assert Keys(t.live)["a"].slot == Keys(t.live)["b"].slot;
  }

  lemma MovedTexts(t: Track<()>)
    requires Moved(t) && SameSections(t)
    ensures "a" in t.live.sections && "b" in t.live.sections && "a" in t.view.sections && "b" in t.view.sections
    ensures Texts(t.live, ["a", "b"]) == ["A", "B"] && Contents(t.view.sections, ["b", "a"]) == ["B", "A"]
  {
  }

  lemma TwoTexts(first: string, second: string)
    requires first != "" && second != ""
    ensures Composed([first, second]) == first + "\n\n" + second
  {
    assert [first, second][..1] == [first] && [first][..0] == [];
    assert NonEmpty([first]) == [first] && NonEmpty([first, second]) == [first, second];
    assert Join([first]) == first;
    assert Join([first, second]) == Join([first]) + BLANK_LINE + second;
  }

  lemma OneCalmStep<W>(r: Registry<W>, op: Op<W>)
    requires WellNumbered(r) && Calm(r, op) && !op.DropOp?
    ensures CalmRun(r, [op])
    ensures Tracked(r, [op]).live == After(r, op)
    ensures Tracked(r, [op]).born == map n | n in r.sections :: r.sections[n].def.slot
  {
    assert [op][..0] == [];
    assert Tracked(r, []) == Attached(r);
  }
}
