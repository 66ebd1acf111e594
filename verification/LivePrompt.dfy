/**
 internal/core/system_impl.go: the system prompt as a map of named sections, with one cached text per section
 and one cached prompt, and an observer told of every change.
 */
module LivePrompt {
  import opened Wrappers
  import opened SlotOrder
  import opened Compose

  /** A section's renderer reads the outside world, of type `W`; no renderer means an empty section. */
  datatype Section<!W> = Section(slot: int, name: string, render: Option<W -> string>)

  datatype Live<!W> = Live(def: Section<W>, inserted: nat)

  datatype Change = Changed(name: string, slot: int, content: string) | Removed(name: string)

  function Rendered<W>(sec: Section<W>, world: W): string {
    if sec.render.None? then "" else sec.render.value(world)
  }

  /** What the prompt is about: the registered sections, the insertion counter, and the world they render. */
  datatype Registry<!W> = Registry(sections: map<string, Live<W>>, counter: nat, world: W)

  ghost predicate WellNumbered<W>(r: Registry<W>) {
    && (forall n :: n in r.sections ==> r.sections[n].def.name == n && r.sections[n].inserted <= r.counter)
    && (forall m, n :: m in r.sections && n in r.sections && m != n ==>
      r.sections[m].inserted != r.sections[n].inserted)
  }

  function Keys<W>(r: Registry<W>): map<string, Key> {
    map n | n in r.sections :: Key(r.sections[n].def.slot, r.sections[n].inserted)
  }

  function Texts<W>(r: Registry<W>, names: seq<string>): seq<string>
    requires forall n :: n in names ==> n in r.sections
  {
    seq(|names|, i requires 0 <= i < |names| => Rendered(r.sections[names[i]].def, r.world))
  }

  ghost function Order<W>(r: Registry<W>): (names: seq<string>)
    requires WellNumbered(r)
    ensures InOrder(names, Keys(r))
  {
    RenderOrder(Keys(r))
  }

  /** The prompt assembled from scratch: every section rendered now, in render order. */
  ghost function FromScratch<W>(r: Registry<W>): string
    requires WellNumbered(r)
  {
    Composed(Texts(r, Order(r)))
  }

  /** The same, told from the text: it is what the sections compose to in their render order. */
  ghost predicate IsPrompt<W>(text: string, r: Registry<W>) {
    forall names :: InOrder(names, Keys(r)) ==> Listed(r, names) && text == Composed(Texts(r, names))
  }

  predicate Listed<W>(r: Registry<W>, names: seq<string>) {
    forall n :: n in names ==> n in r.sections
  }

  lemma IsPromptIff<W>(text: string, r: Registry<W>)
    requires WellNumbered(r)
    ensures IsPrompt(text, r) <==> text == FromScratch(r)
  {
    var names := Order(r);
    if text == FromScratch(r) {
      forall others | InOrder(others, Keys(r)) ensures Listed(r, others) && text == Composed(Texts(r, others)) {
        OnlyOneOrder(others, names, Keys(r));
        assert forall n :: n in names ==> n in Keys(r);
      }
    } else {
      assert InOrder(names, Keys(r));
    }
  }

  // ---------------------------------------------------------------------------
  // The operations.

  function Used<W>(r: Registry<W>, sec: Section<W>): Registry<W> {
    if sec.name in r.sections then
      r.(sections := r.sections[sec.name := Live(sec, r.sections[sec.name].inserted)])
    else
      r.(sections := r.sections[sec.name := Live(sec, r.counter + 1)], counter := r.counter + 1)
  }

  function Dropped<W>(r: Registry<W>, name: string): Registry<W> {
    r.(sections := r.sections - {name})
  }

  /** `world` differs from the world of `r` at most in what section `name` renders. */
  ghost predicate OnlyRerenders<W>(r: Registry<W>, name: string, world: W) {
    forall n :: n in r.sections && n != name ==>
      Rendered(r.sections[n].def, world) == Rendered(r.sections[n].def, r.world)
  }

  function Stored<W>(r: Registry<W>, sec: Section<W>, inserted: nat, counter: nat, world: W): Registry<W> {
    Registry(r.sections[sec.name := Live(sec, inserted)], counter, world)
  }

  function Told<W>(sec: Section<W>, world: W): Change {
    Changed(sec.name, sec.slot, Rendered(sec, world))
  }

  // ---------------------------------------------------------------------------
  // The implementation, with its two levels of caching.

  datatype Entry<!W> = Entry(def: Section<W>, inserted: nat, cached: string, current: bool)

  function Lives<W>(sections: map<string, Entry<W>>): (lives: map<string, Live<W>>)
    ensures lives.Keys == sections.Keys
  {
    map n | n in sections :: Live(sections[n].def, sections[n].inserted)
  }

  lemma InsertedOf<W>(sections: map<string, Entry<W>>, name: string)
    requires name in sections
    ensures name in Lives(sections) && Lives(sections)[name].inserted == sections[name].inserted
  {
  }

  /** Every text marked current is what its section renders now. */
  ghost predicate CacheHolds<W>(sections: map<string, Entry<W>>, world: W) {
    forall n :: n in sections && sections[n].current ==> sections[n].cached == Rendered(sections[n].def, world)
  }

  lemma CacheAfterSet<W>(sections: map<string, Entry<W>>, world: W, now: W, n: string, e: Entry<W>)
    requires CacheHolds(sections, world) && !e.current
    requires forall m :: m in sections && m != n ==> Rendered(sections[m].def, now) == Rendered(sections[m].def, world)
    ensures CacheHolds(sections[n := e], now)
  {
  }

  lemma LivesAfterSet<W>(sections: map<string, Entry<W>>, n: string, e: Entry<W>)
    ensures Lives(sections[n := e]) == Lives(sections)[n := Live(e.def, e.inserted)]
  {
  }

  lemma OthersRenderAlike<W>(sections: map<string, Entry<W>>, r: Registry<W>, name: string, now: W)
    requires r.sections == Lives(sections) && OnlyRerenders(r, name, now)
    ensures forall m :: m in sections && m != name ==>
      Rendered(sections[m].def, now) == Rendered(sections[m].def, r.world)
  {
    forall m | m in sections && m != name ensures Rendered(sections[m].def, now) == Rendered(sections[m].def, r.world) {
      assert m in r.sections && r.sections[m].def == sections[m].def;
    }
  }

  lemma LivesAfterRemove<W>(sections: map<string, Entry<W>>, n: string)
    ensures Lives(sections - {n}) == Lives(sections) - {n}
  {
  }

  lemma StaysNumbered<W>(r: Registry<W>, sec: Section<W>, name: string)
    requires WellNumbered(r)
    ensures WellNumbered(Used(r, sec)) && WellNumbered(Dropped(r, name))
  {
    var u := Used(r, sec);
    forall n | n in u.sections ensures u.sections[n].def.name == n && u.sections[n].inserted <= u.counter {
      assert n == sec.name || n in r.sections;
    }
    forall m, n | m in u.sections && n in u.sections && m != n
      ensures u.sections[m].inserted != u.sections[n].inserted
    {
      assert m == sec.name || m in r.sections;
      assert n == sec.name || n in r.sections;
    }
    var d := Dropped(r, name);
    forall n | n in d.sections ensures n in r.sections && d.sections[n] == r.sections[n] {
    }
  }

  /** A world that renders every registered section alike gives the same prompt. */
  lemma SamePrompt<W>(text: string, r: Registry<W>, name: string, now: W)
    requires IsPrompt(text, r) && OnlyRerenders(r, name, now) && name !in r.sections
    ensures IsPrompt(text, r.(world := now))
  {
    var u := r.(world := now);
    assert Keys(u) == Keys(r);
    forall names | InOrder(names, Keys(u)) ensures Listed(u, names) && text == Composed(Texts(u, names)) {
      assert Listed(r, names);
      forall i | 0 <= i < |names| ensures Texts(u, names)[i] == Texts(r, names)[i] {
        assert names[i] in names;
      }
      assert Texts(u, names) == Texts(r, names);
    }
  }

  lemma UsedIsStored<W>(r: Registry<W>, sec: Section<W>, now: W)
    requires WellNumbered(r)
    ensures var u := Used(r.(world := now), sec);
      && WellNumbered(u)
      && u == if sec.name in r.sections then Stored(r, sec, r.sections[sec.name].inserted, r.counter, now)
              else Stored(r, sec, r.counter + 1, r.counter + 1, now)
  {
    StaysNumbered(r.(world := now), sec, "");
  }

  lemma StoredAgain<W>(r: Registry<W>, name: string, now: W)
    requires WellNumbered(r) && name in r.sections
    ensures Stored(r, r.sections[name].def, r.sections[name].inserted, r.counter, now) == r.(world := now)
    ensures WellNumbered(r.(world := now))
  {
    assert r.sections[name := r.sections[name]] == r.sections;
  }

  class System<!W> {
    var sections: map<string, Entry<W>>
    var counter: nat
    var cached: string
    var dirty: bool
    var observed: bool
    var told: seq<Change>
    var world: W

    constructor (world: W)
      ensures Valid() && State() == Registry(map[], 0, world) && !observed && told == []
    {
      sections, counter, cached, dirty, observed, told := map[], 0, "", true, false, [];
      this.world := world;
    }

    ghost function State(): Registry<W>
      reads this`sections, this`counter, this`world
    {
      Registry(Lives(sections), counter, world)
    }

    /** A fresh section text, and a clean prompt, are what rendering now would give. */
    ghost predicate Valid()
      reads this`sections, this`counter, this`world, this`cached, this`dirty
    {
      && WellNumbered(State())
      && CacheHolds(sections, world)
      && (!dirty ==> IsPrompt(cached, State()))
    }

    method Prompt() returns (text: string)
      requires Valid()
      modifies this`sections, this`cached, this`dirty
      ensures Valid() && State() == old(State())
      ensures text == FromScratch(State())
    {
      if dirty {
        cached := Build();
        dirty := false;
      }
      IsPromptIff(cached, State());
      return cached;
    }

    method SortedNames() returns (names: seq<string>)
      requires Valid()
      ensures names == Order(State())
    {
      var keys := map n | n in sections :: Key(sections[n].def.slot, sections[n].inserted);
      assert keys == Keys(State());
      names := SortNames(keys);
      OnlyOneOrder(names, Order(State()), keys);
    }

    method Build() returns (text: string)
      requires Valid()
      modifies this`sections
      ensures State() == old(State()) && text == FromScratch(State())
      ensures CacheHolds(sections, world)
    {
      var names := SortedNames();
      assert forall n :: n in names ==> n in Keys(State());
      var parts := Collect(names);
      text := Join(parts);
    }

    /** The non-empty texts of the named sections, each rendered only if stale. */
    method Collect(names: seq<string>) returns (parts: seq<string>)
      requires (forall n :: n in names ==> n in sections) && CacheHolds(sections, world)
      modifies this`sections
      ensures State() == old(State()) && CacheHolds(sections, world)
      ensures parts == NonEmpty(Texts(State(), names))
    {
      ghost var texts := Texts(State(), names);
      parts := [];
      for i := 0 to |names|
        invariant State() == old(State()) && CacheHolds(sections, world)
        invariant parts == NonEmpty(texts[..i])
      {
        assert names[i] in names && names[i] in State().sections;
        var piece := Text(names[i]);
        assert texts[..i + 1][..i] == texts[..i] && texts[i] == piece;
        if piece != "" {
          parts := parts + [piece];
        }
      }
      assert texts[..|names|] == texts;
    }

    /** One section's text, rendered only if the cached one is stale. */
    method Text(n: string) returns (text: string)
      requires n in sections && CacheHolds(sections, world)
      modifies this`sections
      ensures State() == old(State()) && CacheHolds(sections, world)
      ensures text == Rendered(State().sections[n].def, world)
    {
      var e := sections[n];
      if !e.current {
        e := e.(cached := if e.def.render.Some? then e.def.render.value(world) else "", current := true);
        LivesAfterSet(sections, n, e);
        sections := sections[n := e];
        assert State().sections == old(State()).sections;
      }
      return e.cached;
    }

    /** Registers or replaces a section; the world may have moved on in that section only. */
    method Use(sec: Section<W>, now: W)
      requires Valid() && OnlyRerenders(State(), sec.name, now)
      modifies this
      ensures Valid() && State() == Used(old(State()).(world := now), sec)
      ensures observed == old(observed) && told == old(told) + if observed then [Told(sec, now)] else []
    {
      Store(sec, now);
      Tell(Told(sec, now));
    }

    /** A known section keeps its number, a new one takes the next. */
    method Store(sec: Section<W>, now: W)
      requires Valid() && OnlyRerenders(State(), sec.name, now)
      modifies this`sections, this`counter, this`world, this`dirty
      ensures Valid() && State() == Used(old(State()).(world := now), sec)
    {
      UsedIsStored(State(), sec, now);
      var entry, count := Entry(sec, counter + 1, "", false), counter + 1;
      if sec.name in sections {
        entry, count := sections[sec.name].(def := sec, current := false), counter;
        InsertedOf(sections, sec.name);
      }
      Put(entry, count, now);
    }

    /** Stores an entry whose text is stale; every other section must render in the new world as it did before. */
    method Put(e: Entry<W>, count: nat, now: W)
      requires Valid() && OnlyRerenders(State(), e.def.name, now) && !e.current
      requires WellNumbered(Stored(State(), e.def, e.inserted, count, now))
      modifies this`sections, this`counter, this`world, this`dirty
      ensures Valid() && State() == Stored(old(State()), e.def, e.inserted, count, now)
      ensures sections == old(sections)[e.def.name := e]
    {
      OthersRenderAlike(sections, State(), e.def.name, now);
      CacheAfterSet(sections, world, now, e.def.name, e);
      LivesAfterSet(sections, e.def.name, e);
      world, counter, dirty := now, count, true;
      sections := sections[e.def.name := e];
    }

    method Tell(change: Change)
      requires Valid()
      modifies this`told
      ensures Valid() && State() == old(State())
      ensures told == old(told) + if observed then [change] else []
    {
      if observed {
        told := told + [change];
      }
    }

    method Drop(name: string)
      requires Valid()
      modifies this
      ensures Valid() && State() == Dropped(old(State()), name)
      ensures observed == old(observed)
      ensures told == old(told) + if observed && name in old(sections) then [Removed(name)] else []
    {
      var known := name in sections;
      Erase(name);
      if known {
        Tell(Removed(name));
      }
    }

    method Erase(name: string)
      requires Valid()
      modifies this`sections, this`dirty
      ensures Valid() && State() == Dropped(old(State()), name)
    {
      StaysNumbered(State(), Section(0, "", None), name);
      LivesAfterRemove(sections, name);
      assert name !in sections ==> Lives(sections) - {name} == Lives(sections);
      if name in sections {
        sections := sections - {name};
        dirty := true;
      }
    }

    /** Forces one section to render again, after the world changed what it renders. */
    method Refresh(name: string, now: W)
      requires Valid() && OnlyRerenders(State(), name, now)
      modifies this
      ensures Valid() && State() == old(State()).(world := now)
      ensures observed == old(observed)
      ensures told == old(told) + if observed && name in sections then [Told(sections[name].def, now)] else []
    {
      if name !in sections {
        Idle(name, now);
        return;
      }
      MarkStale(name, now);
      Tell(Told(sections[name].def, world));
    }

    method MarkStale(name: string, now: W)
      requires Valid() && OnlyRerenders(State(), name, now) && name in sections
      modifies this`sections, this`counter, this`world, this`dirty
      ensures Valid() && State() == old(State()).(world := now)
      ensures name in sections && sections[name].def == old(sections[name].def)
    {
      StoredAgain(State(), name, now);
      Put(sections[name].(current := false), counter, now);
    }

    /** The world moves on in what an unregistered section would render. */
    method Idle(name: string, now: W)
      requires Valid() && OnlyRerenders(State(), name, now) && name !in sections
      modifies this`world
      ensures Valid() && State() == old(State()).(world := now)
    {
      if !dirty {
        SamePrompt(cached, State(), name, now);
      }
      OthersRenderAlike(sections, State(), name, now);
      world := now;
    }

    /** Attaches the observer and replays the registered sections to it, in render order. */
    method SetObserver()
      requires Valid()
      modifies this`observed, this`told
      ensures Valid() && State() == old(State()) && observed
      ensures told == old(told) + Introduction(State(), Order(State()))
    {
      observed := true;
      IntroduceAll();
    }

    method IntroduceAll()
      requires Valid()
      modifies this`told
      ensures told == old(told) + Introduction(State(), Order(State()))
    {
      var names := SortedNames();
      OrderIsLive(State());
      Introduce(names);
    }

    method Introduce(names: seq<string>)
      requires forall n :: n in names ==> n in State().sections
      modifies this`told
      ensures told == old(told) + Introduction(State(), names)
    {
      ghost var all := Introduction(State(), names);
      for i := 0 to |names|
        invariant told == old(told) + all[..i]
      {
        assert names[i] in names && all[i] == Told(sections[names[i]].def, world);
        told := told + [Told(sections[names[i]].def, world)];
      }
    }
  }

  lemma OrderIsLive<W>(r: Registry<W>)
    requires WellNumbered(r)
    ensures forall n :: n in Order(r) ==> n in r.sections
  {
    assert forall n :: n in Order(r) ==> n in Keys(r);
  }

  /** The synthetic changes that tell a new observer about existing sections. */
  function Introduction<W>(r: Registry<W>, names: seq<string>): seq<Change>
    requires forall n :: n in names ==> n in r.sections
  {
    seq(|names|, i requires 0 <= i < |names| => Told(r.sections[names[i]].def, r.world))
  }
}
