/** The single-flight image cache as a protocol: every `get` is a locked lookup, an unlocked
    load shared through a once-cell, and a locked cleanup; any number of them interleave. */
module ImageCache {
  import Sets
  import opened Text
  import opened CacheEviction

  /** What the image store holds, and the decoder that makes thumbnails of it. */
  datatype Source = Source(body: seq<Byte>, mime: string)
  type Render = seq<Byte> -> Option<seq<Byte>>

  datatype Outcome = Failed | Found(image: Option<Image>) {
    predicate HasNoImage() { Failed? || image.None? }
  }
  datatype Phase = Waiting | Fetching | Fetched(source: Option<Source>) | Done(outcome: Outcome)

  /** A `get` in flight, between its lookup and its cleanup. */
  datatype Getter = Getter(key: Key, cell: nat, lookedUp: int, phase: Phase)

  /** One read of the store: when, for which key, and what it returned. */
  datatype Read = Read(key: Key, at: int, source: Option<Source>)

  datatype State = State(
    values: Entries, clock: nat, cells: Cells, nextCell: nat, getters: map<nat, Getter>,
    store: map<(Option<string>, string), Source>, now: int, readLog: seq<Read>)

  datatype Step =
    | Lookup(g: nat, key: Key)
    | StartLoad(g: nat)
    | ReadStore(g: nat)
    | FinishLoad(g: nat)
    | FailLoad(g: nat)
    | Join(g: nat)
    | Cleanup(g: nat)
    | Environment

  // ---- The steps ----

  function Retained(values: Entries, now: int): Entries {
    map k | k in values && now - values[k].created < TTL :: values[k]
  }

  /** The map after a lookup: expired entries are gone and the key carries the new stamp. */
  function LookedUp(values: Entries, key: Key, now: int, stamp: nat, newCell: nat): (r: Entries)
    ensures key in r && now - r[key].created < TTL
  {
    var kept := Retained(values, now);
    if key in kept then kept[key := kept[key].(used := stamp)] else kept[key := Entry(newCell, now, stamp)]
  }

  function StoreLookup(s: State, key: Key): Option<Source> {
    if (key.owner, key.imageId) in s.store then Some(s.store[(key.owner, key.imageId)]) else None
  }

  /** What a load makes of a source: the bytes untouched, or a thumbnail of them. */
  function Produce(render: Render, thumbnail: bool, source: Option<Source>): Outcome {
    if source.None? then Found(None)
    else if !thumbnail then Found(Some(Image(source.value.body, source.value.mime)))
    else
      var small := render(source.value.body);
      if small.None? then Failed else Found(Some(Image(small.value, "image/webp")))
  }

  function WithPhase(s: State, g: nat, phase: Phase): State
    requires g in s.getters
  {
    s.(getters := s.getters[g := s.getters[g].(phase := phase)])
  }

  function WithContent(s: State, c: nat, content: Content): State
    requires c in s.cells
  {
    s.(cells := s.cells[c := s.cells[c].(content := content)])
  }

  predicate InFlight(s: State, g: nat) {
    g in s.getters && s.getters[g].cell in s.cells
  }

  function Content(s: State, g: nat): Content
    requires InFlight(s, g)
  {
    s.cells[s.getters[g].cell].content
  }

  /** The locked lookup at the start of `get`. */
  function AfterLookup(s: State, g: nat, key: Key): State {
    var values := LookedUp(s.values, key, s.now, s.clock + 1, s.nextCell);
    var cell := values[key].cell;
    var newCell := cell == s.nextCell;
    s.(values := values, clock := s.clock + 1,
       cells := if newCell then s.cells[cell := Cell(key, s.now, Empty)] else s.cells,
       nextCell := if newCell then s.nextCell + 1 else s.nextCell,
       getters := s.getters[g := Getter(key, cell, s.now, Waiting)])
  }

  /** The map after a getter without an image removed its own entry, by cell identity. */
  function Discarded(values: Entries, key: Key, cell: nat, outcome: Outcome): Entries {
    if outcome.HasNoImage() && key in values && values[key].cell == cell
    then values - {key} else values
  }

  ghost predicate Next(render: Render, s: State, t: State, step: Step) {
    match step
    case Lookup(g, key) => g !in s.getters && t == AfterLookup(s, g, key)
    case StartLoad(g) =>
      && InFlight(s, g) && s.getters[g].phase == Waiting && Content(s, g) == Empty
      && t == WithPhase(WithContent(s, s.getters[g].cell, Loading(g)), g, Fetching)
    case ReadStore(g) =>
      && InFlight(s, g) && s.getters[g].phase == Fetching
      && var source := StoreLookup(s, s.getters[g].key);
         t == WithPhase(s, g, Fetched(source)).(readLog := s.readLog + [Read(s.getters[g].key, s.now, source)])
    case FinishLoad(g) =>
      && InFlight(s, g) && s.getters[g].phase.Fetched?
      && var outcome := Produce(render, s.getters[g].key.thumbnail, s.getters[g].phase.source);
         && outcome.Found?
         && t == WithPhase(WithContent(s, s.getters[g].cell, Ready(outcome.image)), g, Done(outcome))
    case FailLoad(g) =>
      && InFlight(s, g) && (s.getters[g].phase.Fetching? || s.getters[g].phase.Fetched?)
      && t == WithPhase(WithContent(s, s.getters[g].cell, Empty), g, Done(Failed))
    case Join(g) =>
      && InFlight(s, g) && s.getters[g].phase == Waiting && Content(s, g).Ready?
      && t == WithPhase(s, g, Done(Found(Content(s, g).image)))
    case Cleanup(g) =>
      && InFlight(s, g) && s.getters[g].phase.Done?
      && var before := Discarded(s.values, s.getters[g].key, s.getters[g].cell, s.getters[g].phase.outcome);
         && Mapped(before, s.cells) && Evicted(before, t.values, s.cells)
         && t == s.(values := t.values, getters := s.getters - {g})
    case Environment =>
      t.now >= s.now && t == s.(now := t.now, store := t.store)
  }

  // ---- The invariant ----

  predicate EntryOk(s: State, k: Key)
    requires k in s.values
  {
    var e := s.values[k];
    e.cell in s.cells && s.cells[e.cell].key == k && s.cells[e.cell].born == e.created && e.used <= s.clock
  }

  /** A past read of the store for this very key, no older than the entry. */
  predicate ReadBy(r: Read, key: Key, born: int) {
    r.key == key && r.at >= born
  }

  predicate Seen(readLog: seq<Read>, key: Key, born: int, source: Option<Source>) {
    exists i :: 0 <= i < |readLog| && ReadBy(readLog[i], key, born) && readLog[i].source == source
  }

  predicate Genuine(render: Render, readLog: seq<Read>, key: Key, born: int, image: Option<Image>) {
    exists i :: 0 <= i < |readLog| && ReadBy(readLog[i], key, born)
                && Produce(render, key.thumbnail, readLog[i].source) == Found(image)
  }

  predicate CellOk(render: Render, s: State, c: nat)
    requires c in s.cells
  {
    var cell := s.cells[c];
    && c < s.nextCell && cell.born <= s.now
    && match cell.content
       case Empty => true
       case Loading(g) =>
         g in s.getters && s.getters[g].cell == c && (s.getters[g].phase.Fetching? || s.getters[g].phase.Fetched?)
       case Ready(image) => Genuine(render, s.readLog, cell.key, cell.born, image)
  }

  predicate GetterOk(s: State, g: nat)
    requires g in s.getters
  {
    var getter := s.getters[g];
    && getter.cell in s.cells
    && var cell := s.cells[getter.cell];
       && cell.key == getter.key && cell.born <= getter.lookedUp <= s.now && getter.lookedUp - cell.born < TTL
       && match getter.phase
          case Waiting => cell.content != Loading(g)
          case Fetching => cell.content == Loading(g)
          case Fetched(source) => cell.content == Loading(g) && Seen(s.readLog, getter.key, cell.born, source)
          case Done(Failed) => cell.content != Loading(g)
          case Done(Found(image)) => cell.content == Ready(image)
  }

  /** Some getter in flight still holds the cell. */
  predicate Attended(s: State, c: nat) {
    exists g :: g in s.getters && s.getters[g].cell == c
  }

  predicate Holding(s: State, k: Key)
    requires k in s.values
  {
    var c := s.values[k].cell;
    c in s.cells && s.cells[c].content.Ready? && s.cells[c].content.image.Some?
  }

  ghost predicate Inv(render: Render, s: State) {
    && (forall k :: k in s.values ==> EntryOk(s, k))
    && DistinctStamps(s.values)
    && (forall c :: c in s.cells ==> CellOk(render, s, c))
    && (forall g :: g in s.getters ==> GetterOk(s, g))
    && (forall k :: k in s.values ==> Holding(s, k) || Attended(s, s.values[k].cell))
  }

  // ---- Every step keeps it ----

  /** What was read stays read. */
  lemma LogGrows(render: Render, a: seq<Read>, b: seq<Read>, key: Key, born: int)
    requires a <= b
    ensures forall source :: Seen(a, key, born, source) ==> Seen(b, key, born, source)
    ensures forall image :: Genuine(render, a, key, born, image) ==> Genuine(render, b, key, born, image)
  {
    assert forall i :: 0 <= i < |a| ==> b[i] == a[i];
  }

  lemma LookupKeepsEntries(render: Render, s: State, g: nat, key: Key)
    requires Inv(render, s)
    ensures var t := AfterLookup(s, g, key);
            (forall k :: k in t.values ==> EntryOk(t, k)) && DistinctStamps(t.values)
  {
    var t := AfterLookup(s, g, key);
    assert forall c :: c in s.cells ==> CellOk(render, s, c);
    forall k | k in t.values ensures EntryOk(t, k) {
      if k in s.values { assert EntryOk(s, k); }
    }
    assert forall k :: k in t.values && k != key ==> EntryOk(s, k) && t.values[k] == s.values[k];
  }

  lemma LookupKeepsCells(render: Render, s: State, g: nat, key: Key)
    requires Inv(render, s) && g !in s.getters
    ensures var t := AfterLookup(s, g, key);
            && (forall c :: c in t.cells ==> CellOk(render, t, c))
            && (forall h :: h in t.getters ==> GetterOk(t, h))
  {
    var t := AfterLookup(s, g, key);
    assert forall k :: k in s.values ==> EntryOk(s, k);
    forall c | c in t.cells ensures CellOk(render, t, c) {
      if c in s.cells { assert CellOk(render, s, c); }
    }
    assert s.nextCell !in s.cells;
    forall h | h in t.getters ensures GetterOk(t, h) {
      if h != g { assert GetterOk(s, h); }
    }
  }

  lemma LookupKeepsAttended(render: Render, s: State, g: nat, key: Key, k: Key)
    requires Inv(render, s) && g !in s.getters && k in AfterLookup(s, g, key).values
    ensures var t := AfterLookup(s, g, key); Holding(t, k) || Attended(t, t.values[k].cell)
  {
    var t := AfterLookup(s, g, key);
    if k == key {
      assert t.getters[g].cell == t.values[k].cell;
    } else {
      assert EntryOk(s, k) && CellOk(render, s, s.values[k].cell);
      if !Holding(s, k) {
        var h :| h in s.getters && s.getters[h].cell == s.values[k].cell;
        assert h in t.getters && t.getters[h].cell == t.values[k].cell;
      }
    }
  }

  lemma LookupKeeps(render: Render, s: State, g: nat, key: Key)
    requires Inv(render, s) && g !in s.getters
    ensures Inv(render, AfterLookup(s, g, key))
  {
    LookupKeepsEntries(render, s, g, key);
    LookupKeepsCells(render, s, g, key);
    var t := AfterLookup(s, g, key);
    forall k | k in t.values ensures Holding(t, k) || Attended(t, t.values[k].cell) {
      LookupKeepsAttended(render, s, g, key, k);
    }
  }

  /** A step of one getter that touches only its phase, its cell and the read log. */
  predicate Local(s: State, t: State, g: nat) {
    && InFlight(s, g)
    && t.values == s.values && t.clock == s.clock && t.nextCell == s.nextCell && t.now == s.now
    && t.getters.Keys == s.getters.Keys && t.cells.Keys == s.cells.Keys
    && (forall h :: h in s.getters && h != g ==> t.getters[h] == s.getters[h])
    && (forall c :: c in s.cells && c != s.getters[g].cell ==> t.cells[c] == s.cells[c])
    && t.getters[g].(phase := Waiting) == s.getters[g].(phase := Waiting)
    && t.cells[s.getters[g].cell].(content := Empty) == s.cells[s.getters[g].cell].(content := Empty)
    && s.readLog <= t.readLog
  }

  /** Such a step keeps the invariant if it leaves its own getter and cell in order, does not take a
      filled cell's image away, and does not take a cell that another getter is loading. */
  lemma LocalKeepsCells(render: Render, s: State, t: State, g: nat)
    requires Inv(render, s) && Local(s, t, g)
    requires GetterOk(t, g) && CellOk(render, t, s.getters[g].cell)
    requires var before, after := s.cells[s.getters[g].cell].content, t.cells[s.getters[g].cell].content;
             && (before.Ready? ==> after == before)
             && (before.Loading? && before.getter != g ==> after == before)
             && (after.Loading? ==> after == before || after.getter == g)
    ensures forall c :: c in t.cells ==> CellOk(render, t, c)
  {
    var own := s.getters[g].cell;
    forall c | c in t.cells ensures CellOk(render, t, c) {
      if c != own {
        assert CellOk(render, s, c);
        LogGrows(render, s.readLog, t.readLog, s.cells[c].key, s.cells[c].born);
      }
    }
  }

  lemma LocalKeepsGetters(render: Render, s: State, t: State, g: nat)
    requires Inv(render, s) && Local(s, t, g)
    requires GetterOk(t, g) && CellOk(render, t, s.getters[g].cell)
    requires var before, after := s.cells[s.getters[g].cell].content, t.cells[s.getters[g].cell].content;
             && (before.Ready? ==> after == before)
             && (before.Loading? && before.getter != g ==> after == before)
             && (after.Loading? ==> after == before || after.getter == g)
    ensures forall h :: h in t.getters ==> GetterOk(t, h)
  {
    forall h | h in t.getters ensures GetterOk(t, h) {
      if h != g {
        assert GetterOk(s, h);
        LogGrows(render, s.readLog, t.readLog, s.getters[h].key, s.cells[s.getters[h].cell].born);
      }
    }
  }

  lemma LocalKeepsAttended(render: Render, s: State, t: State, g: nat, k: Key)
    requires Inv(render, s) && Local(s, t, g)
    requires GetterOk(t, g) && CellOk(render, t, s.getters[g].cell)
    requires var before, after := s.cells[s.getters[g].cell].content, t.cells[s.getters[g].cell].content;
             && (before.Ready? ==> after == before)
             && (before.Loading? && before.getter != g ==> after == before)
             && (after.Loading? ==> after == before || after.getter == g)
    requires k in t.values
    ensures EntryOk(t, k) && (Holding(t, k) || Attended(t, t.values[k].cell))
  {
    assert EntryOk(s, k);
    if !Holding(s, k) {
      var h :| h in s.getters && s.getters[h].cell == s.values[k].cell;
      assert h in t.getters && t.getters[h].cell == t.values[k].cell;
    }
  }

  lemma LocalKeeps(render: Render, s: State, t: State, g: nat)
    requires Inv(render, s) && Local(s, t, g)
    requires GetterOk(t, g) && CellOk(render, t, s.getters[g].cell)
    requires var before, after := s.cells[s.getters[g].cell].content, t.cells[s.getters[g].cell].content;
             && (before.Ready? ==> after == before)
             && (before.Loading? && before.getter != g ==> after == before)
             && (after.Loading? ==> after == before || after.getter == g)
    ensures Inv(render, t)
  {
    LocalKeepsCells(render, s, t, g);
    LocalKeepsGetters(render, s, t, g);
    forall k | k in t.values ensures EntryOk(t, k) && (Holding(t, k) || Attended(t, t.values[k].cell)) {
      LocalKeepsAttended(render, s, t, g, k);
    }
  }

  lemma LoadKeeps(render: Render, s: State, t: State, step: Step)
    requires Inv(render, s) && Next(render, s, t, step)
    requires step.StartLoad? || step.FailLoad? || step.Join?
    ensures Inv(render, t)
  {
    assert GetterOk(s, step.g) && CellOk(render, s, s.getters[step.g].cell);
    LocalKeeps(render, s, t, step.g);
  }

  lemma ReadStoreKeeps(render: Render, s: State, t: State, g: nat)
    requires Inv(render, s) && Next(render, s, t, ReadStore(g))
    ensures Inv(render, t)
  {
    var getter := s.getters[g];
    assert GetterOk(s, g) && CellOk(render, s, getter.cell);
    var r := Read(getter.key, s.now, StoreLookup(s, getter.key));
    assert t.readLog == s.readLog + [r];
    assert t.readLog[|s.readLog|] == r && ReadBy(r, getter.key, s.cells[getter.cell].born);
    LocalKeeps(render, s, t, g);
  }

  lemma FinishLoadKeeps(render: Render, s: State, t: State, g: nat)
    requires Inv(render, s) && Next(render, s, t, FinishLoad(g))
    ensures Inv(render, t)
  {
    var getter := s.getters[g];
    assert GetterOk(s, g) && CellOk(render, s, getter.cell);
    LocalKeeps(render, s, t, g);
  }

  lemma EnvironmentKeeps(render: Render, s: State, t: State)
    requires Inv(render, s) && Next(render, s, t, Environment)
    ensures Inv(render, t)
  {
    forall c | c in t.cells ensures CellOk(render, t, c) { assert CellOk(render, s, c); }
    forall k | k in t.values ensures EntryOk(t, k) { assert EntryOk(s, k); }
    forall g | g in t.getters ensures GetterOk(t, g) { assert GetterOk(s, g); }
    forall k | k in t.values ensures Holding(t, k) || Attended(t, t.values[k].cell) {
      if !Holding(s, k) {
        var h :| h in s.getters && s.getters[h].cell == s.values[k].cell;
        assert h in t.getters && t.getters[h].cell == t.values[k].cell;
      }
    }
  }

  /** A getter that leaves takes its own unfilled entry with it, so nothing is left unattended. */
  lemma CleanupKeepsAttended(render: Render, s: State, t: State, g: nat, k: Key)
    requires Inv(render, s) && Next(render, s, t, Cleanup(g)) && k in t.values
    ensures k in s.values && t.values[k] == s.values[k] && EntryOk(t, k)
    ensures Holding(t, k) || Attended(t, t.values[k].cell)
  {
    assert GetterOk(s, g) && EntryOk(s, k);
    if !Holding(s, k) {
      var h :| h in s.getters && s.getters[h].cell == s.values[k].cell;
      assert GetterOk(s, h);
      assert h != g;
      assert h in t.getters && t.getters[h].cell == t.values[k].cell;
    }
  }

  lemma CleanupKeeps(render: Render, s: State, t: State, g: nat)
    requires Inv(render, s) && Next(render, s, t, Cleanup(g))
    ensures Inv(render, t)
  {
    forall c | c in t.cells ensures CellOk(render, t, c) {
      assert CellOk(render, s, c) && GetterOk(s, g);
    }
    forall h | h in t.getters ensures GetterOk(t, h) { assert GetterOk(s, h); }
    forall k | k in t.values
      ensures k in s.values && t.values[k] == s.values[k] && EntryOk(t, k)
              && (Holding(t, k) || Attended(t, t.values[k].cell))
    {
      CleanupKeepsAttended(render, s, t, g, k);
    }
  }

  lemma NextKeeps(render: Render, s: State, t: State, step: Step)
    requires Inv(render, s) && Next(render, s, t, step)
    ensures Inv(render, t)
  {
    match step
    case Lookup(g, key) => LookupKeeps(render, s, g, key);
    case StartLoad(_) => LoadKeeps(render, s, t, step);
    case ReadStore(g) => ReadStoreKeeps(render, s, t, g);
    case FinishLoad(g) => FinishLoadKeeps(render, s, t, g);
    case FailLoad(_) => LoadKeeps(render, s, t, step);
    case Join(_) => LoadKeeps(render, s, t, step);
    case Cleanup(g) => CleanupKeeps(render, s, t, g);
    case Environment => EnvironmentKeeps(render, s, t);
  }

  // ---- Every run ----

  predicate Initial(s: State) {
    s.values == map[] && s.clock == 0 && s.cells == map[] && s.nextCell == 0 && s.getters == map[] && s.readLog == []
  }

  /** A run: the states it passes through and the steps between them. */
  ghost predicate Run(render: Render, states: seq<State>, steps: seq<Step>) {
    && |states| == |steps| + 1 && Initial(states[0])
    && forall i {:trigger steps[i]} :: 0 <= i < |steps| ==> Next(render, states[i], states[i + 1], steps[i])
  }

  /** Whatever the interleaving, every state of a run satisfies the invariant. */
  lemma {:induction false} RunInv(render: Render, states: seq<State>, steps: seq<Step>, i: nat)
    requires Run(render, states, steps) && i < |states|
    ensures Inv(render, states[i])
  {
    if i > 0 {
      RunInv(render, states, steps, i - 1);
      assert Next(render, states[i - 1], states[i], steps[i - 1]);
      NextKeeps(render, states[i - 1], states[i], steps[i - 1]);
    }
  }

  lemma {:induction false} ZeroSum(m: map<Key, nat>)
    requires forall k :: k in m ==> m[k] == 0
    ensures Sum(m) == 0
    decreases |m|
  {
    if m != map[] {
      var k :| k in m;
      SumRemove(m, k);
      RemoveSmaller(m, k);
      ZeroSum(m - {k});
    }
  }

  lemma CleanupLeavesMapped(render: Render, s: State, t: State, g: nat)
    requires Inv(render, s) && Next(render, s, t, Cleanup(g))
    ensures Mapped(t.values, t.cells)
  {
    CleanupKeeps(render, s, t, g);
    assert forall k :: k in t.values ==> EntryOk(t, k);
  }

  /** After each cleanup the cached bytes are bounded, and so is the map unless all of it is in flight. */
  lemma CacheBounded(render: Render, states: seq<State>, steps: seq<Step>, i: nat)
    requires Run(render, states, steps) && i < |steps| && steps[i].Cleanup?
    ensures var t := states[i + 1];
            && Mapped(t.values, t.cells)
            && Sum(Sizes(t.values, t.cells)) <= MAX_BYTES
            && (|t.values| <= MAX_ENTRIES || forall k :: k in t.values ==> !Initialized(t.values, t.cells, k))
            && DistinctStamps(t.values)
  {
    var s, t, g := states[i], states[i + 1], steps[i].g;
    RunInv(render, states, steps, i);
    RunInv(render, states, steps, i + 1);
    CleanupLeavesMapped(render, s, t, g);
    if !Within(t.values, t.cells) {
      assert forall k :: k in t.values ==> !Initialized(t.values, t.cells, k);
      ZeroSum(Sizes(t.values, t.cells));
    }
  }

  /** The keys of the getters in flight. */
  function KeysInFlight(getters: map<nat, Getter>): set<Key> {
    set g | g in getters :: getters[g].key
  }

  lemma {:induction false} FewerKeys(getters: map<nat, Getter>)
    ensures |KeysInFlight(getters)| <= |getters|
    decreases |getters|
  {
    if getters != map[] {
      var g :| g in getters;
      var rest := getters - {g};
      assert rest.Keys == getters.Keys - {g};
      FewerKeys(rest);
      assert KeysInFlight(getters) == KeysInFlight(rest) + {getters[g].key};
    }
  }

  /** An entry without an image has a getter for its own key in flight. */
  lemma UnfilledKey(render: Render, s: State, k: Key)
    requires Inv(render, s) && k in s.values && !Holding(s, k)
    ensures k in KeysInFlight(s.getters)
  {
    var g :| g in s.getters && s.getters[g].cell == s.values[k].cell;
    assert GetterOk(s, g) && EntryOk(s, k);
    assert s.getters[g].key == k;
  }

  /** A map with no filled entry is no larger than the number of getters in flight. */
  lemma UnfilledBounded(render: Render, s: State)
    requires Inv(render, s) && forall k :: k in s.values ==> !Holding(s, k)
    ensures |s.values| <= |s.getters|
  {
    forall k | k in s.values.Keys ensures k in KeysInFlight(s.getters) { UnfilledKey(render, s, k); }
    Sets.SubsetSize(s.values.Keys, KeysInFlight(s.getters));
    FewerKeys(s.getters);
  }

  lemma CleanupBounded(render: Render, states: seq<State>, steps: seq<Step>, i: nat)
    requires Run(render, states, steps) && i < |steps| && steps[i].Cleanup?
    ensures |states[i + 1].values| <= MAX_ENTRIES + |states[i + 1].getters|
  {
    var t := states[i + 1];
    CacheBounded(render, states, steps, i);
    if |t.values| > MAX_ENTRIES {
      RunInv(render, states, steps, i + 1);
      forall k | k in t.values ensures !Holding(t, k) { assert !Initialized(t.values, t.cells, k); }
      UnfilledBounded(render, t);
    }
  }

  lemma LookupAddsOne(values: Entries, key: Key, now: int, stamp: nat, newCell: nat)
    ensures |LookedUp(values, key, now, stamp, newCell)| <= |values| + 1
  {
    var after := LookedUp(values, key, now, stamp, newCell);
    assert after.Keys <= values.Keys + {key};
    Sets.SubsetSize(after.Keys, values.Keys + {key});
  }

  lemma OneMore(getters: map<nat, Getter>, g: nat, getter: Getter)
    requires g !in getters
    ensures |getters[g := getter]| == |getters| + 1
  {
    assert getters[g := getter].Keys == getters.Keys + {g};
  }

  lemma LookupGrows(s: State, g: nat, key: Key)
    requires g !in s.getters
    ensures var t := AfterLookup(s, g, key);
            |t.values| <= |s.values| + 1 && |t.getters| == |s.getters| + 1
  {
    LookupAddsOne(s.values, key, s.now, s.clock + 1, s.nextCell);
    OneMore(s.getters, g, AfterLookup(s, g, key).getters[g]);
  }

  lemma OthersKeepSize(render: Render, s: State, t: State, step: Step)
    requires Next(render, s, t, step) && !step.Lookup? && !step.Cleanup?
    ensures t.values == s.values && t.getters.Keys == s.getters.Keys && |t.getters| == |s.getters|
  {
  }

  /** In every state of every run, between cleanups too, the map holds at most 512 entries more than there
      are getters in flight. */
  lemma {:induction false} EntriesBounded(render: Render, states: seq<State>, steps: seq<Step>, i: nat)
    requires Run(render, states, steps) && i < |states|
    ensures |states[i].values| <= MAX_ENTRIES + |states[i].getters|
  {
    if i > 0 {
      var s, t, step := states[i - 1], states[i], steps[i - 1];
      EntriesBounded(render, states, steps, i - 1);
      assert Next(render, s, t, step);
      match step
      case Lookup(g, key) => LookupGrows(s, g, key);
      case Cleanup(g) => CleanupBounded(render, states, steps, i - 1);
      case _ => OthersKeepSize(render, s, t, step);
    }
  }

  /** The entry is the one the getter looked up, and the getter brought no image for it. */
  predicate OwnAndEmpty(values: Entries, getter: Getter, k: Key)
    requires k in values
  {
    k == getter.key && values[k].cell == getter.cell && getter.phase.Done? && getter.phase.outcome.HasNoImage()
  }

  /** The entry has to make room: it is filled, and even without the filled entries used before it the
      map would be over the limits. */
  ghost predicate MustGo(values: Entries, cells: Cells, k: Key)
    requires Mapped(values, cells) && k in values
  {
    && Initialized(values, cells, k) && Mapped(KeptFrom(values, cells, k), cells)
    && !Within(KeptFrom(values, cells, k), cells)
  }

  lemma CleanupRemovesFrom(values: Entries, after: Entries, cells: Cells, getter: Getter, k: Key)
    requires Mapped(values, cells) && getter.phase.Done? && k in values
    requires var before := Discarded(values, getter.key, getter.cell, getter.phase.outcome);
             Mapped(before, cells) && Evicted(before, after, cells)
    ensures var before := Discarded(values, getter.key, getter.cell, getter.phase.outcome);
            && (k !in after <==> OwnAndEmpty(values, getter, k) || (k in before && MustGo(before, cells, k)))
            && (Within(values, cells) ==> (k !in after <==> OwnAndEmpty(values, getter, k)))
  {
    var before := Discarded(values, getter.key, getter.cell, getter.phase.outcome);
    if k in before {
      EvictedExactly(before, after, cells, k);
      if Within(values, cells) { WithinPart(KeptFrom(before, cells, k), values, cells); }
    }
  }

  lemma EvictedIsOlder(values: Entries, after: Entries, cells: Cells, getter: Getter, k: Key, l: Key)
    requires Mapped(values, cells) && getter.phase.Done? && k in values && k !in after
    requires !OwnAndEmpty(values, getter, k)
    requires var before := Discarded(values, getter.key, getter.cell, getter.phase.outcome);
             Mapped(before, cells) && Evicted(before, after, cells)
    requires l in after && l in values && Initialized(values, cells, l)
    ensures values[k].used < values[l].used
  {
    var before := Discarded(values, getter.key, getter.cell, getter.phase.outcome);
    assert k in before && Initialized(before, cells, l);
  }

  /** Exactly which entries a cleanup removes: the entry of its own cell, if it brought no image, even
      when another getter has filled that cell meanwhile; and the entries that have to make room. Within
      the limits it removes nothing else. A newer entry for its key is not its own. */
  lemma CleanupRemoves(render: Render, states: seq<State>, steps: seq<Step>, i: nat, k: Key)
    requires Run(render, states, steps) && i < |steps| && steps[i].Cleanup? && k in states[i].values
    ensures var s, t, getter := states[i], states[i + 1], states[i].getters[steps[i].g];
            var before := Discarded(s.values, getter.key, getter.cell, getter.phase.outcome);
            && Mapped(s.values, s.cells) && Mapped(before, s.cells)
            && (k !in t.values <==> OwnAndEmpty(s.values, getter, k) || (k in before && MustGo(before, s.cells, k)))
            && (Within(s.values, s.cells) ==> (k !in t.values <==> OwnAndEmpty(s.values, getter, k)))
  {
    var s, t, getter := states[i], states[i + 1], states[i].getters[steps[i].g];
    RunInv(render, states, steps, i);
    assert forall l :: l in s.values ==> EntryOk(s, l);
    CleanupRemovesFrom(s.values, t.values, s.cells, getter, k);
  }

  /** What makes room was used before every filled entry that stays. */
  lemma CleanupEvictsOldest(render: Render, states: seq<State>, steps: seq<Step>, i: nat, k: Key, l: Key)
    requires Run(render, states, steps) && i < |steps| && steps[i].Cleanup?
    requires var s, t := states[i], states[i + 1];
             && k in s.values && k !in t.values && !OwnAndEmpty(s.values, s.getters[steps[i].g], k)
             && l in t.values && l in s.values && Mapped(s.values, s.cells) && Initialized(s.values, s.cells, l)
    ensures states[i].values[k].used < states[i].values[l].used
  {
    var s, t := states[i], states[i + 1];
    EvictedIsOlder(s.values, t.values, s.cells, s.getters[steps[i].g], k, l);
  }

  // ---- A filled entry that a failed getter removes ----

  const PICTURE := Key(None, "p", false)
  const PIXELS := Source([0], "m")
  const SHOWN := Image([0], "m")

  /** One map entry and one cell; the getter map varies. */
  function Snap(clock: nat, content: Content, getters: map<nat, Getter>, log: seq<Read>): State {
    State(map[PICTURE := Entry(0, 0, clock)], clock, map[0 := Cell(PICTURE, 0, content)], 1, getters,
          map[(None, "p") := PIXELS], 0, log)
  }

  function Reader(phase: Phase): Getter { Getter(PICTURE, 0, 0, phase) }

  const ONE_READ := [Read(PICTURE, 0, Some(PIXELS))]

  /** Getter 1 fails, getter 2 finds the same cell and fills it, then getter 1 cleans up. */
  function FailThenFill(): seq<Step> {
    [Lookup(1, PICTURE), StartLoad(1), FailLoad(1), Lookup(2, PICTURE), StartLoad(2), ReadStore(2), FinishLoad(2),
     Cleanup(1)]
  }

  function FailThenFillStates(): seq<State> {
    [State(map[], 0, map[], 0, map[], map[(None, "p") := PIXELS], 0, []),
     Snap(1, Empty, map[1 := Reader(Waiting)], []),
     Snap(1, Loading(1), map[1 := Reader(Fetching)], []),
     Snap(1, Empty, map[1 := Reader(Done(Failed))], []),
     Snap(2, Empty, map[1 := Reader(Done(Failed)), 2 := Reader(Waiting)], []),
     Snap(2, Loading(2), map[1 := Reader(Done(Failed)), 2 := Reader(Fetching)], []),
     Snap(2, Loading(2), map[1 := Reader(Done(Failed)), 2 := Reader(Fetched(Some(PIXELS)))], ONE_READ),
     Snap(2, Ready(Some(SHOWN)), map[1 := Reader(Done(Failed)), 2 := Reader(Done(Found(Some(SHOWN))))], ONE_READ),
     Snap(2, Ready(Some(SHOWN)), map[2 := Reader(Done(Found(Some(SHOWN))))], ONE_READ).(values := map[])]
  }

  lemma FailThenFillLookups(render: Render)
    ensures var states, steps := FailThenFillStates(), FailThenFill();
            Next(render, states[0], states[1], steps[0]) && Next(render, states[3], states[4], steps[3])
  {
    var states := FailThenFillStates();
    assert Retained(states[0].values, 0) == map[];
    assert Retained(states[3].values, 0) == states[3].values;
    assert states[1].values == LookedUp(map[], PICTURE, 0, 1, 0);
    assert states[4].values == LookedUp(states[3].values, PICTURE, 0, 2, 1);
    assert states[1] == AfterLookup(states[0], 1, PICTURE);
    assert states[4] == AfterLookup(states[3], 2, PICTURE);
  }

  lemma SnapStarts(render: Render, clock: nat, getters: map<nat, Getter>, g: nat, log: seq<Read>)
    requires g in getters && getters[g] == Reader(Waiting)
    ensures Next(render, Snap(clock, Empty, getters, log),
                 Snap(clock, Loading(g), getters[g := Reader(Fetching)], log), StartLoad(g))
  {
    var s := Snap(clock, Empty, getters, log);
    assert WithContent(s, 0, Loading(g)).cells == map[0 := Cell(PICTURE, 0, Loading(g))];
  }

  lemma SnapFails(render: Render, clock: nat, getters: map<nat, Getter>, g: nat, log: seq<Read>)
    requires g in getters && getters[g] == Reader(Fetching)
    ensures Next(render, Snap(clock, Loading(g), getters, log),
                 Snap(clock, Empty, getters[g := Reader(Done(Failed))], log), FailLoad(g))
  {
    var s := Snap(clock, Loading(g), getters, log);
    assert WithContent(s, 0, Empty).cells == map[0 := Cell(PICTURE, 0, Empty)];
  }

  lemma FirstStarts(render: Render)
    ensures var states, steps := FailThenFillStates(), FailThenFill(); Next(render, states[1], states[2], steps[1])
  {
    var waiting := map[1 := Reader(Waiting)];
    SnapStarts(render, 1, waiting, 1, []);
    assert waiting[1 := Reader(Fetching)] == map[1 := Reader(Fetching)];
  }

  lemma FirstFails(render: Render)
    ensures var states, steps := FailThenFillStates(), FailThenFill(); Next(render, states[2], states[3], steps[2])
  {
    var fetching := map[1 := Reader(Fetching)];
    SnapFails(render, 1, fetching, 1, []);
    assert fetching[1 := Reader(Done(Failed))] == map[1 := Reader(Done(Failed))];
  }

  lemma SecondStarts(render: Render)
    ensures var states, steps := FailThenFillStates(), FailThenFill(); Next(render, states[4], states[5], steps[4])
  {
    var both := map[1 := Reader(Done(Failed)), 2 := Reader(Waiting)];
    SnapStarts(render, 2, both, 2, []);
    assert both[2 := Reader(Fetching)] == map[1 := Reader(Done(Failed)), 2 := Reader(Fetching)];
  }

  lemma SecondReads(render: Render)
    ensures var states, steps := FailThenFillStates(), FailThenFill(); Next(render, states[5], states[6], steps[5])
  {
    var s, t := FailThenFillStates()[5], FailThenFillStates()[6];
    assert StoreLookup(s, PICTURE) == Some(PIXELS);
    assert t == WithPhase(s, 2, Fetched(Some(PIXELS))).(readLog := [] + ONE_READ);
  }

  lemma SecondFills(render: Render)
    ensures var states, steps := FailThenFillStates(), FailThenFill(); Next(render, states[6], states[7], steps[6])
  {
    var s, t := FailThenFillStates()[6], FailThenFillStates()[7];
    assert Produce(render, false, Some(PIXELS)) == Found(Some(SHOWN));
    assert t == WithPhase(WithContent(s, 0, Ready(Some(SHOWN))), 2, Done(Found(Some(SHOWN))));
  }

  lemma NothingToEvict(cells: Cells)
    ensures Mapped(map[], cells) && Evicted(map[], map[], cells)
  {
    ZeroSum(Sizes(map[], cells));
  }

  lemma SnapCleans(render: Render, s: State, t: State, g: nat)
    requires InFlight(s, g) && s.getters[g] == Reader(Done(Failed)) && s.values == map[PICTURE := Entry(0, 0, s.clock)]
    requires t == s.(values := map[], getters := s.getters - {g})
    ensures Next(render, s, t, Cleanup(g))
  {
    assert Discarded(s.values, PICTURE, 0, Failed) == map[];
    NothingToEvict(s.cells);
  }

  lemma FailThenFillCleans(render: Render)
    ensures var states, steps := FailThenFillStates(), FailThenFill(); Next(render, states[7], states[8], steps[7])
  {
    var s, t := FailThenFillStates()[7], FailThenFillStates()[8];
    assert t.getters == s.getters - {1};
    SnapCleans(render, s, t, 1);
  }

  lemma EightSteps(render: Render, states: seq<State>, steps: seq<Step>)
    requires |states| == 9 && |steps| == 8 && Initial(states[0])
    requires Next(render, states[0], states[1], steps[0]) && Next(render, states[1], states[2], steps[1])
    requires Next(render, states[2], states[3], steps[2]) && Next(render, states[3], states[4], steps[3])
    requires Next(render, states[4], states[5], steps[4]) && Next(render, states[5], states[6], steps[5])
    requires Next(render, states[6], states[7], steps[6]) && Next(render, states[7], states[8], steps[7])
    ensures Run(render, states, steps)
  {
    forall i | 0 <= i < |steps| ensures Next(render, states[i], states[i + 1], steps[i]) {
      if i == 0 {} else if i == 1 {} else if i == 2 {} else if i == 3 {} else if i == 4 {}
      else if i == 5 {} else if i == 6 {} else {}
    }
  }

  /** The run is one of the protocol, and its last step removes an entry that holds an image. */
  lemma FilledEntryRemoved(render: Render)
    ensures var states, steps := FailThenFillStates(), FailThenFill();
            && Run(render, states, steps)
            && PICTURE in states[7].values && Holding(states[7], PICTURE) && PICTURE !in states[8].values
  {
    FailThenFillLookups(render);
    FirstStarts(render);
    FirstFails(render);
    SecondStarts(render);
    SecondReads(render);
    SecondFills(render);
    FailThenFillCleans(render);
    EightSteps(render, FailThenFillStates(), FailThenFill());
  }

  /** A `get` that returns an image returns what the store returned for exactly its key, at a time no
      earlier than the entry it found, which at its lookup was younger than the TTL. */
  lemma ReturnsGenuineImage(render: Render, states: seq<State>, steps: seq<Step>, i: nat, image: Image)
    requires Run(render, states, steps) && i < |steps| && steps[i].Cleanup?
    requires states[i].getters[steps[i].g].phase == Done(Found(Some(image)))
    ensures var s, getter := states[i], states[i].getters[steps[i].g];
            exists j :: 0 <= j < |s.readLog| && s.readLog[j].key == getter.key
                        && getter.lookedUp - TTL < s.readLog[j].at
                        && Produce(render, getter.key.thumbnail, s.readLog[j].source) == Found(Some(image))
  {
    var s, g := states[i], steps[i].g;
    RunInv(render, states, steps, i);
    assert GetterOk(s, g) && CellOk(render, s, s.getters[g].cell);
    var cell := s.cells[s.getters[g].cell];
    var j :| 0 <= j < |s.readLog| && ReadBy(s.readLog[j], cell.key, cell.born)
             && Produce(render, cell.key.thumbnail, s.readLog[j].source) == Found(Some(image));
  }

  /** The log tells the truth: each read in it is what the store held at an earlier step. */
  lemma {:induction false} LoggedReadHappened(render: Render, states: seq<State>, steps: seq<Step>, i: nat, j: nat)
    returns (m: nat)
    requires Run(render, states, steps) && i < |states| && j < |states[i].readLog|
    ensures var r := states[i].readLog[j];
            && m < i && steps[m].ReadStore? && r.at == states[m].now && r.source == StoreLookup(states[m], r.key)
  {
    assert Next(render, states[i - 1], states[i], steps[i - 1]);
    if j < |states[i - 1].readLog| {
      m := LoggedReadHappened(render, states, steps, i - 1, j);
    } else {
      m := i - 1;
    }
  }

  /** An entry without an image always has a getter in flight. */
  lemma UnfilledIsInFlight(render: Render, states: seq<State>, steps: seq<Step>, i: nat, k: Key)
    requires Run(render, states, steps) && i < |states| && k in states[i].values
    ensures Holding(states[i], k) || Attended(states[i], states[i].values[k].cell)
  {
    RunInv(render, states, steps, i);
  }

  /** Single flight: two getters never load the same cell at once. */
  lemma SingleFlight(render: Render, states: seq<State>, steps: seq<Step>, i: nat, g: nat, h: nat)
    requires Run(render, states, steps) && i < |states|
    requires g in states[i].getters && h in states[i].getters && g != h
    requires var s := states[i];
             && (s.getters[g].phase.Fetching? || s.getters[g].phase.Fetched?)
             && (s.getters[h].phase.Fetching? || s.getters[h].phase.Fetched?)
    ensures states[i].getters[g].cell != states[i].getters[h].cell
  {
    RunInv(render, states, steps, i);
    assert GetterOk(states[i], g) && GetterOk(states[i], h);
  }

  lemma FilledStays(render: Render, s: State, t: State, step: Step, c: nat)
    requires Inv(render, s) && Next(render, s, t, step) && c in s.cells && s.cells[c].content.Ready?
    ensures c in t.cells && t.cells[c] == s.cells[c]
  {
    assert CellOk(render, s, c);
    match step
    case Lookup(g, key) =>
    case StartLoad(g) =>
    case ReadStore(g) =>
    case FinishLoad(g) => assert GetterOk(s, g);
    case FailLoad(g) => assert GetterOk(s, g);
    case Join(g) =>
    case Cleanup(g) =>
    case Environment =>
  }

  /** A cell is filled once: what it holds never changes. */
  lemma {:induction false} FilledOnce(render: Render, states: seq<State>, steps: seq<Step>, i: nat, j: nat, c: nat)
    requires Run(render, states, steps) && i <= j < |states|
    requires c in states[i].cells && states[i].cells[c].content.Ready?
    ensures c in states[j].cells && states[j].cells[c] == states[i].cells[c]
  {
    if i < j {
      FilledOnce(render, states, steps, i, j - 1, c);
      RunInv(render, states, steps, j - 1);
      assert Next(render, states[j - 1], states[j], steps[j - 1]);
      FilledStays(render, states[j - 1], states[j], steps[j - 1], c);
    }
  }

  /** A getter keeps its identity until its cleanup; one that found a filled cell only joins it. */
  predicate Joining(s: State, g: nat, c: nat, image: Option<Image>) {
    && g in s.getters && s.getters[g].cell == c
    && (s.getters[g].phase == Waiting || s.getters[g].phase == Done(Found(image)))
  }

  lemma JoiningStep(render: Render, s: State, t: State, step: Step, g: nat, c: nat, image: Option<Image>)
    requires Inv(render, s) && Next(render, s, t, step) && c in s.cells && s.cells[c].content == Ready(image)
    requires Joining(s, g, c, image) && step != Cleanup(g)
    ensures Joining(t, g, c, image)
  {
    assert GetterOk(s, g);
  }

  /** A hit costs nothing: a getter waiting on a filled cell never reads the store, and when it is
      done it has exactly the image that was there. */
  lemma {:induction false} HitOnlyJoins(render: Render, states: seq<State>, steps: seq<Step>, i: nat, j: nat, g: nat)
    requires Run(render, states, steps) && i <= j < |states|
    requires InFlight(states[i], g) && states[i].getters[g].phase == Waiting && Content(states[i], g).Ready?
    requires forall k :: i <= k < j ==> steps[k] != Cleanup(g)
    ensures Joining(states[j], g, states[i].getters[g].cell, Content(states[i], g).image)
  {
    if i < j {
      HitOnlyJoins(render, states, steps, i, j - 1, g);
      var c := states[i].getters[g].cell;
      RunInv(render, states, steps, j - 1);
      FilledOnce(render, states, steps, i, j - 1, c);
      assert Next(render, states[j - 1], states[j], steps[j - 1]);
      JoiningStep(render, states[j - 1], states[j], steps[j - 1], g, c, Content(states[i], g).image);
    }
  }

  // ---- The cache object ----

  /** The map behind its mutex. `s` is the protocol state the call starts from. */
  class OrderImageCache {
    var values: Entries
    var clock: nat
    var cells: Cells
    var nextCell: nat

    ghost predicate Matches(s: State)
      reads this
    {
      values == s.values && clock == s.clock && cells == s.cells && nextCell == s.nextCell
    }

    constructor ()
      ensures forall s | Initial(s) :: Matches(s)
    {
      values, clock, cells, nextCell := map[], 0, map[], 0;
    }

    /** The first locked section of `get` is the protocol's lookup step. */
    method Lookup(key: Key, now: int, ghost s: State, ghost g: nat) returns (cell: nat)
      requires Matches(s) && s.now == now
      requires forall k :: k in values ==> values[k].cell < nextCell
      modifies this
      ensures Matches(AfterLookup(s, g, key)) && cell == AfterLookup(s, g, key).getters[g].cell
    {
      values := Retained(values, now);
      clock := clock + 1;
      if key !in values {
        values := values[key := Entry(nextCell, now, clock)];
        cells := cells[nextCell := Cell(key, now, Empty)];
        nextCell := nextCell + 1;
      }
      values := values[key := values[key].(used := clock)];
      cell := values[key].cell;
    }

    /** The second locked section makes exactly the change of the protocol's cleanup step. */
    method Cleanup(key: Key, cell: nat, outcome: Outcome)
      requires Mapped(values, cells) && DistinctStamps(values)
      modifies this`values
      ensures Mapped(Discarded(old(values), key, cell, outcome), cells)
      ensures Evicted(Discarded(old(values), key, cell, outcome), values, cells)
    {
      if outcome.HasNoImage() {
        if key in values && values[key].cell == cell { values := values - {key}; }
      }
      values := Evict(values, cells);
    }
  }
}
