/** Many clients interleaving load, command and save on one journeys table.

    Every step is atomic and any client may take the next one.  `versions` is a ghost record of
    all the rows ever committed for an id, and `commands` of the commands that produced them.
 */
module JourneyWorld {
  import opened Common
  import opened JourneyRules
  import opened JourneyRuns
  import opened JourneyPersistence

  /** What a client holds: nothing, a loaded journey, or one ready to be saved, with its origin. */
  datatype Local =
    | Idle
    | Holding(journey: Journey)
    | Ready(journey: Journey, base: Option<Journey>, call: Call)

  datatype World = World(table: Table, clients: map<nat, Local>,
                         versions: map<string, seq<Row>>, commands: map<string, Run>)

  const START := World(map[], map[], map[], map[])

  datatype Event =
    | Create(client: nat, journey: Journey)
    | Load(client: nat, id: string)
    | Work(client: nat, call: Call)
    | Save(client: nat)
    | Drop(client: nat)

  function LocalOf(w: World, c: nat): Local {
    if c in w.clients then w.clients[c] else Idle
  }

  ghost predicate Enabled(w: World, e: Event) {
    match e
    case Create(c, j) => LocalOf(w, c).Idle? && IsNew(j)
    case Load(c, id) => LocalOf(w, c).Idle? && FindError(w.table, id).None?
    case Work(c, call) => LocalOf(w, c).Holding?
    case Save(c) => LocalOf(w, c).Ready?
    case Drop(c) => true
  }

  function Commit(w: World, l: Local): World
    requires l.Ready?
  {
    var id := l.journey.journeyId;
    match Upsert(w.table, l.journey)
    case None => w
    case Some(t) =>
      World(t, w.clients,
            w.versions[id := (if id in w.versions then w.versions[id] else []) + [t[id]]],
            w.commands[id := (if id in w.commands then w.commands[id] else [])
                             + (if l.base.Some? then [l.call] else [])])
  }

  function Step(w: World, e: Event): World {
    match e
    case Create(c, j) => w.(clients := w.clients[c := Ready(j, None, Call(DoCancel, 0))])
    case Load(c, id) => if id in w.table then w.(clients := w.clients[c := Holding(Loaded(w.table[id]))]) else w
    case Work(c, call) =>
      if !LocalOf(w, c).Holding? then w else
      var base := LocalOf(w, c).journey;
      var o := Apply(base, call.command, call.now);
      w.(clients := w.clients[c := if o.err.Some? then Idle else Ready(o.journey, Some(base), call)])
    case Save(c) =>
      if !LocalOf(w, c).Ready? then w else
      var w' := Commit(w, LocalOf(w, c));
      w'.(clients := w'.clients[c := Idle])
    case Drop(c) => w.(clients := w.clients[c := Idle])
  }

  function After(run: seq<Event>): World {
    if run == [] then START else Step(After(run[..|run| - 1]), run[|run| - 1])
  }

  ghost predicate Legal(run: seq<Event>)
    decreases |run|
  {
    run == [] || (Legal(run[..|run| - 1]) && Enabled(After(run[..|run| - 1]), run[|run| - 1]))
  }

  // ---------------------------------------------------------------------------
  // The invariant
  // ---------------------------------------------------------------------------

  ghost predicate IsNewRow(r: Row) {
    exists j :: IsNew(j) && r == RowOf(j)
  }

  /** Row `b` is the outcome of one successful command on the journey row `a` rehydrates to. */
  predicate Follows(a: Row, call: Call, b: Row) {
    var o := Apply(Loaded(a), call.command, call.now);
    o.err.None? && b == RowOf(o.journey)
  }

  /** The committed rows of one journey: created by NewJourney at version 2, then one command per version. */
  ghost predicate Chain(id: string, rows: seq<Row>, calls: Run) {
    && |rows| == |calls| + 1
    && IsNewRow(rows[0])
    && (forall k | 0 <= k < |rows| :: rows[k].journeyId == id && rows[k].version == k + 2)
    && (forall k | 0 <= k < |calls| :: Follows(rows[k], calls[k], rows[k + 1]))
  }

  ghost predicate HasVersion(w: World, j: Journey) {
    var id := j.journeyId;
    id in w.versions && 2 <= j.version < |w.versions[id]| + 2 && j == Loaded(w.versions[id][j.version - 2])
  }

  ghost predicate LocalInv(w: World, l: Local) {
    match l
    case Idle => true
    case Holding(j) => HasVersion(w, j)
    case Ready(j, None, _) => IsNew(j)
    case Ready(j, Some(base), call) =>
      HasVersion(w, base) && Apply(base, call.command, call.now) == Ok(j)
  }

  ghost predicate TableInv(w: World) {
    && w.table.Keys == w.versions.Keys == w.commands.Keys
    && (forall id | id in w.table :: Chain(id, w.versions[id], w.commands[id]))
    && (forall id | id in w.table :: w.table[id] == w.versions[id][|w.versions[id]| - 1])
  }

  ghost predicate Inv(w: World) {
    TableInv(w) && forall c | c in w.clients :: LocalInv(w, w.clients[c])
  }

  lemma ApplyKeepsIdentity(j: Journey, c: Command, now: int)
    ensures var k := Apply(j, c, now).journey;
            k.journeyId == j.journeyId && k.version == j.version && k.createdAt == j.createdAt &&
            k.originLat == j.originLat && k.originLon == j.originLon &&
            k.originStopId == j.originStopId && k.destinationStopId == j.destinationStopId && k.userId == j.userId
  {}

  lemma NewHasVersionOne(j: Journey)
    requires IsNew(j)
    ensures j.version == 1 && Rehydrates(RowOf(j)) && Sound(j) && j.status == Searching
  {}

  /** Recording `rows'` and `calls'` for `id`, with the last row in the table. */
  function Link(w: World, id: string, rows': seq<Row>, calls': Run): World
    requires rows' != []
  {
    World(w.table[id := rows'[|rows'| - 1]], w.clients, w.versions[id := rows'], w.commands[id := calls'])
  }

  lemma LinkKeepsTable(w: World, id: string, rows': seq<Row>, calls': Run)
    requires TableInv(w) && rows' != [] && Chain(id, rows', calls')
    ensures TableInv(Link(w, id, rows', calls'))
  {
    hide Chain;
  }

  lemma LinkKeepsVersions(w: World, id: string, rows': seq<Row>, calls': Run, k: Journey)
    requires rows' != [] && (id in w.versions ==> w.versions[id] <= rows') && HasVersion(w, k)
    ensures HasVersion(Link(w, id, rows', calls'), k)
  {}

  lemma ChainStarts(j: Journey)
    requires IsNew(j)
    ensures Chain(j.journeyId, [RowOf(j)], [])
  {
    NewHasVersionOne(j);
    RowKeeps(j);
    assert IsNewRow(RowOf(j));
  }

  /** A create that goes through starts the chain of its journey. */
  lemma CreateStarts(w: World, l: Local)
    requires TableInv(w) && l.Ready? && l.base.None? && IsNew(l.journey) && Upsert(w.table, l.journey).Some?
    ensures var id, row := l.journey.journeyId, RowOf(l.journey);
            id !in w.table && Commit(w, l) == Link(w, id, [row], []) && Chain(id, [row], [])
  {
    hide RowOf, IsNew, IsNewRow, TableInv, Sound, Chain;
    NewHasVersionOne(l.journey);
    FreshId(w, l.journey.journeyId);
    RowKeeps(l.journey);
    ChainStarts(l.journey);
    assert [] + [RowOf(l.journey)] == [RowOf(l.journey)];
  }

  lemma FreshId(w: World, id: string)
    requires TableInv(w)
    ensures id in w.table ==> w.table[id].version >= 2
    ensures w.table.Keys == w.versions.Keys == w.commands.Keys
  {
    if id in w.table { assert Chain(id, w.versions[id], w.commands[id]); }
  }

  /** A save of a loaded journey goes through only onto the row it was loaded from. */
  lemma SaveBase(w: World, j: Journey, base: Journey)
    requires TableInv(w) && HasVersion(w, base) && Upsert(w.table, j).Some?
    requires j.journeyId == base.journeyId && j.version == base.version && j.createdAt == base.createdAt
    ensures var id, row := j.journeyId, RowOf(j);
            && id in w.table && base == Loaded(w.table[id])
            && row.version == |w.versions[id]| + 2 && row.journeyId == id
            && Upsert(w.table, j) == Some(w.table[id := row])
  {
    hide RowOf, Loaded, Chain;
    LastVersion(w, j.journeyId);
    hide TableInv;
    RowKeeps(j);
    LoadedKeeps(w.table[j.journeyId]);
    SameCreatedAt(RowOf(j), w.table[j.journeyId].createdAt);
  }

  lemma SameCreatedAt(r: Row, at: int)
    requires r.createdAt == at
    ensures r.(createdAt := at) == r
  {}

  lemma SaveExtends(w: World, l: Local)
    requires TableInv(w) && l.Ready? && l.base.Some? && LocalInv(w, l) && Upsert(w.table, l.journey).Some?
    ensures var id, row := l.journey.journeyId, RowOf(l.journey);
            && id in w.versions && Follows(w.table[id], l.call, row)
            && row.version == |w.versions[id]| + 2 && row.journeyId == id
            && Commit(w, l) == Link(w, id, w.versions[id] + [row], w.commands[id] + [l.call])
  {
    ApplyKeepsIdentity(l.base.value, l.call.command, l.call.now);
    hide Apply, RowOf, Loaded, Chain, HasVersion, Upsert;
    SaveBase(w, l.journey, l.base.value);
  }

  lemma LastVersion(w: World, id: string)
    requires TableInv(w) && id in w.table
    ensures var rows := w.versions[id];
            rows != [] && w.table[id] == rows[|rows| - 1] && w.table[id].version == |rows| + 1
  {
    assert Chain(id, w.versions[id], w.commands[id]);
  }

  lemma RowKeeps(j: Journey)
    ensures RowOf(j).createdAt == j.createdAt && RowOf(j).version == j.version + 1 && RowOf(j).journeyId == j.journeyId
  {}

  lemma LoadedKeeps(r: Row)
    ensures Loaded(r).createdAt == r.createdAt && Loaded(r).version == r.version && Loaded(r).journeyId == r.journeyId
  {}

  lemma ChainGrows(id: string, rows: seq<Row>, calls: Run, row: Row, call: Call)
    requires Chain(id, rows, calls) && Follows(rows[|rows| - 1], call, row)
    requires row.version == |rows| + 2 && row.journeyId == id
    ensures Chain(id, rows + [row], calls + [call])
  {
    hide Follows, IsNewRow;
    var rows', calls' := rows + [row], calls + [call];
    forall k | 0 <= k < |calls'|
      ensures Follows(rows'[k], calls'[k], rows'[k + 1])
    {
      assert k < |calls| ==> Follows(rows[k], calls[k], rows[k + 1]);
    }
  }

  lemma CommitLinks(w: World, l: Local) returns (rows: seq<Row>, calls: Run)
    requires TableInv(w) && LocalInv(w, l) && l.Ready? && Upsert(w.table, l.journey).Some?
    ensures rows != [] && Chain(l.journey.journeyId, rows, calls)
    ensures Commit(w, l) == Link(w, l.journey.journeyId, rows, calls)
    ensures l.journey.journeyId in w.versions ==> w.versions[l.journey.journeyId] <= rows
  {
    hide Chain, HasVersion, Follows, Commit, RowOf, Upsert, IsNew, Apply, Loaded;
    var id := l.journey.journeyId;
    rows, calls := [RowOf(l.journey)], [];
    if l.base.None? {
      CreateStarts(w, l);
      FreshId(w, id);
    } else {
      SaveExtends(w, l);
      rows, calls := w.versions[id] + rows, w.commands[id] + [l.call];
      ChainGrows(id, w.versions[id], w.commands[id], RowOf(l.journey), l.call);
    }
  }

  /** A save that goes through extends the chain of its journey by exactly one link. */
  lemma CommitExtends(w: World, l: Local)
    requires TableInv(w) && LocalInv(w, l) && l.Ready?
    ensures TableInv(Commit(w, l))
    ensures forall k: Journey :: HasVersion(w, k) ==> HasVersion(Commit(w, l), k)
  {
    hide Chain, HasVersion, LocalInv, RowOf, TableInv, Link;
    if Upsert(w.table, l.journey).Some? {
      var rows, calls := CommitLinks(w, l);
      LinkKeepsTable(w, l.journey.journeyId, rows, calls);
      forall k: Journey | HasVersion(w, k)
        ensures HasVersion(Commit(w, l), k)
      {
        LinkKeepsVersions(w, l.journey.journeyId, rows, calls, k);
      }
    }
  }

  lemma LocalsSurvive(w: World, w': World, l: Local)
    requires LocalInv(w, l) && forall k: Journey :: HasVersion(w, k) ==> HasVersion(w', k)
    ensures LocalInv(w', l)
  {
    hide HasVersion, Apply, IsNew;
  }

  lemma SaveKeepsInv(w: World, c: nat)
    requires Inv(w) && LocalOf(w, c).Ready?
    ensures Inv(Step(w, Save(c)))
  {
    hide LocalInv, HasVersion, Commit, Chain, Upsert, RowOf, Loaded, Apply;
    var l := LocalOf(w, c);
    CommitExtends(w, l);
    CommitKeepsClients(w, l);
    var w1 := Commit(w, l);
    forall d | d in w1.clients
      ensures LocalInv(w1, w1.clients[d])
    {
      LocalsSurvive(w, w1, w.clients[d]);
    }
    IdleIsFine(w1);
    ClientStepKeepsInv(w1, c, Idle);
  }

  lemma CommitKeepsClients(w: World, l: Local)
    requires l.Ready?
    ensures Commit(w, l).clients == w.clients
  {}

  lemma SameVersions(w: World, w': World)
    requires w'.versions == w.versions
    ensures forall k: Journey :: HasVersion(w, k) <==> HasVersion(w', k)
  {}

  lemma IdleIsFine(w: World)
    ensures LocalInv(w, Idle)
  {}

  lemma LoadHolds(w: World, id: string)
    requires TableInv(w) && id in w.table
    ensures HasVersion(w, Loaded(w.table[id]))
  {
    assert Chain(id, w.versions[id], w.commands[id]);
    LoadedKeeps(w.table[id]);
    hide Loaded;
  }

  /** Steps that only change what one client holds. */
  lemma ClientStepKeepsInv(w: World, c: nat, l: Local)
    requires Inv(w) && LocalInv(w, l)
    ensures Inv(w.(clients := w.clients[c := l]))
  {
    hide Chain, HasVersion;
    var w' := w.(clients := w.clients[c := l]);
    SameVersions(w, w');
    forall d | d in w'.clients
      ensures LocalInv(w', w'.clients[d])
    {
      LocalsSurvive(w, w', w'.clients[d]);
    }
  }

  lemma StepKeepsInv(w: World, e: Event)
    requires Inv(w) && Enabled(w, e)
    ensures Inv(Step(w, e))
  {
    hide Chain, HasVersion, Commit, Loaded, IsNew, Apply, TableInv;
    match e {
      case Save(c) => SaveKeepsInv(w, c);
      case Load(c, id) =>
        LoadHolds(w, id);
        ClientStepKeepsInv(w, c, Holding(Loaded(w.table[id])));
      case Work(c, call) =>
        var base := LocalOf(w, c).journey;
        var o := Apply(base, call.command, call.now);
        ClientStepKeepsInv(w, c, if o.err.Some? then Idle else Ready(o.journey, Some(base), call));
      case Create(c, j) => ClientStepKeepsInv(w, c, Ready(j, None, Call(DoCancel, 0)));
      case Drop(c) => ClientStepKeepsInv(w, c, Idle);
    }
  }

  lemma {:induction false} AlwaysInv(run: seq<Event>)
    requires Legal(run)
    ensures Inv(After(run))
    decreases |run|
  {
    if run != [] {
      AlwaysInv(run[..|run| - 1]);
      StepKeepsInv(After(run[..|run| - 1]), run[|run| - 1]);
    }
  }

  // ---------------------------------------------------------------------------
  // Consequences
  // ---------------------------------------------------------------------------

  /** No lost update: on every interleaving each committed row is the outcome of exactly one
      successful command on the row one version earlier, versions count up from 2 without gap or
      repetition, and the table holds the last one. */
  lemma NoLostUpdate(run: seq<Event>, id: string)
    requires Legal(run) && id in After(run).table
    ensures id in After(run).versions && id in After(run).commands
    ensures Chain(id, After(run).versions[id], After(run).commands[id])
    ensures After(run).table[id] == After(run).versions[id][|After(run).versions[id]| - 1]
  {
    AlwaysInv(run);
  }

  /** A create never overwrites: an id that is in the table refuses a fresh journey. */
  lemma CreateNeverOverwrites(run: seq<Event>, j: Journey)
    requires Legal(run) && IsNew(j)
    ensures Upsert(After(run).table, j).None? <==> j.journeyId in After(run).table
  {
    AlwaysInv(run);
    NewHasVersionOne(j);
    FreshId(After(run), j.journeyId);
  }

  /** A save by a client holding a loaded journey goes through exactly when the row has not been
      committed again since the load. */
  lemma SaveSucceedsIff(run: seq<Event>, c: nat)
    requires Legal(run) && LocalOf(After(run), c).Ready? && LocalOf(After(run), c).base.Some?
    ensures var w, l := After(run), LocalOf(After(run), c);
            && l.journey.journeyId in w.table
            && (Upsert(w.table, l.journey).Some? <==> l.base.value == Loaded(w.table[l.journey.journeyId]))
  {
    AlwaysInv(run);
    var w, l := After(run), LocalOf(After(run), c);
    ApplyKeepsIdentity(l.base.value, l.call.command, l.call.now);
    LastVersion(w, l.journey.journeyId);
    LoadedKeeps(w.table[l.journey.journeyId]);
    hide Apply, Loaded, Chain;
  }

  /** A command handler that is not interrupted is one client's load, work and save in a row: it
      answers the load's error where no load is possible and otherwise the command's, so it is never
      told that its version is stale, and the tables agree. */
  lemma HandlerIsLoadWorkSave(run: seq<Event>, c: nat, id: string, call: Call)
    requires Legal(run) && LocalOf(After(run), c).Idle?
    ensures var w := After(run);
            var (table, err) := Handled(w.table, id, call.command, call.now);
            if Enabled(w, Load(c, id)) then
              var w3 := Step(Step(Step(w, Load(c, id)), Work(c, call)), Save(c));
              var failure := Apply(Loaded(w.table[id]), call.command, call.now).err;
              && w3.table == table && LocalOf(w3, c).Idle?
              && err == (if failure.Some? then Some(Domain(failure.value)) else None)
            else table == w.table && err.Some? && err == FindError(w.table, id)
  {
    hide Legal, After, Upsert, Loaded, CheckOrigin, Apply, Inv;
    AlwaysInv(run);
    var w := After(run);
    if id in w.table {
      LoadedIsCurrent(w, id, call);
      LoadWorkSave(w, c, id, call);
    }
  }

  lemma LoadWorkSave(w: World, c: nat, id: string, call: Call)
    requires LocalOf(w, c).Idle? && id in w.table
    ensures var w3 := Step(Step(Step(w, Load(c, id)), Work(c, call)), Save(c));
            var o := Apply(Loaded(w.table[id]), call.command, call.now);
            && LocalOf(w3, c).Idle?
            && w3.table == (if o.err.Some? || Upsert(w.table, o.journey).None? then w.table
                            else Upsert(w.table, o.journey).value)
  {
    hide Apply, Loaded, Upsert;
    var w1 := Step(w, Load(c, id));
    assert LocalOf(w1, c) == Holding(Loaded(w.table[id]));
  }

  /** A journey just loaded is at the stored version. */
  lemma LoadedIsCurrent(w: World, id: string, call: Call)
    requires Inv(w) && id in w.table
    ensures Upsert(w.table, Apply(Loaded(w.table[id]), call.command, call.now).journey).Some?
  {
    TableIds(w, id);
    LoadedKeeps(w.table[id]);
    ApplyKeepsIdentity(Loaded(w.table[id]), call.command, call.now);
    hide Apply, Loaded, RowOf, Inv;
  }

  lemma TableIds(w: World, id: string)
    requires TableInv(w) && id in w.table
    ensures w.table[id].journeyId == id
  {
    assert Chain(id, w.versions[id], w.commands[id]);
  }

  // The journey a chain of rows amounts to.

  lemma ApplyIgnoresBookkeeping(j: Journey, k: Journey, c: Command, now: int)
    requires Persisted(j) == Persisted(k)
    ensures Persisted(Apply(j, c, now).journey) == Persisted(Apply(k, c, now).journey)
    ensures Apply(j, c, now).err == Apply(k, c, now).err
  {
    JourneyFields(j, k);
  }

  lemma JourneyFields(j: Journey, k: Journey)
    requires Persisted(j) == Persisted(k)
    ensures k == j.(version := k.version, lastSwitchReason := k.lastSwitchReason, events := k.events)
  {}

  /** After any commits, the stored row is what one new journey becomes by running, in order, the
      commands that were committed; all of them succeed on the way. */
  ghost predicate Serial(first: Journey, calls: Run, row: Row) {
    && IsNew(first)
    && Persisted(Loaded(row)) == Persisted(JourneyRuns.After(first, calls))
    && forall k | 0 <= k < |calls| ::
         Apply(JourneyRuns.After(first, calls[..k]), calls[k].command, calls[k].now).err.None?
  }

  lemma {:induction false} ChainIsSerial(id: string, rows: seq<Row>, calls: Run, first: Journey)
    requires Chain(id, rows, calls) && IsNew(first) && rows[0] == RowOf(first)
    ensures Serial(first, calls, rows[|rows| - 1])
    decreases |calls|
  {
    hide Serial, IsNew, Loaded, RowOf, Apply, Follows, IsNewRow, JourneyRuns.After;
    if calls == [] {
      SerialStart(first);
    } else {
      var n := |calls| - 1;
      var rows0, calls0 := rows[..n + 1], calls[..n];
      ChainShrinks(id, rows, calls);
      ChainIsSerial(id, rows0, calls0, first);
      SerialStep(first, calls0, rows0[n], calls[n], rows[n + 1]);
      assert calls0 + [calls[n]] == calls;
    }
  }

  lemma SerialStart(first: Journey)
    requires IsNew(first)
    ensures Serial(first, [], RowOf(first))
  {
    NewHasVersionOne(first);
    SaveLoadRoundTrip(first);
    hide IsNew, Loaded, RowOf, Sound;
  }

  lemma ChainShrinks(id: string, rows: seq<Row>, calls: Run)
    requires Chain(id, rows, calls) && calls != []
    ensures Chain(id, rows[..|calls|], calls[..|calls| - 1])
    ensures Follows(rows[|calls| - 1], calls[|calls| - 1], rows[|calls|])
  {
    hide Follows, IsNewRow;
    var rows', calls' := rows[..|calls|], calls[..|calls| - 1];
    forall k | 0 <= k < |calls'|
      ensures Follows(rows'[k], calls'[k], rows'[k + 1])
    {
      assert Follows(rows[k], calls[k], rows[k + 1]);
    }
  }

  lemma SerialStep(first: Journey, calls: Run, row: Row, call: Call, row': Row)
    requires Serial(first, calls, row) && Follows(row, call, row')
    ensures Serial(first, calls + [call], row')
  {
    var calls' := calls + [call];
    var j, o := JourneyRuns.After(first, calls), Apply(Loaded(row), call.command, call.now);
    ApplyIgnoresBookkeeping(Loaded(row), j, call.command, call.now);
    assert JourneyRuns.Before(calls') == calls;
    AlwaysSound(first, calls');
    SoundIgnoresBookkeeping(JourneyRuns.After(first, calls'), o.journey);
    SaveLoadRoundTrip(o.journey);
    hide Apply, Sound, IsNew, Loaded;
    forall k | 0 <= k < |calls'|
      ensures Apply(JourneyRuns.After(first, calls'[..k]), calls'[k].command, calls'[k].now).err.None?
    {
      assert calls'[..k] == calls[..k];
    }
  }

  lemma SoundIgnoresBookkeeping(j: Journey, k: Journey)
    requires Sound(j) && Persisted(j) == Persisted(k)
    ensures Sound(k)
  {
    JourneyFields(j, k);
  }

  function CommandsOf(w: World, id: string): Run {
    if id in w.commands then w.commands[id] else []
  }

  /** Serializability: on every interleaving of any number of clients, each stored journey is the
      result of one sequential run, from NewJourney, of the commands that were committed for it. */
  lemma StoredJourneyIsSerial(run: seq<Event>, id: string)
    requires Legal(run) && id in After(run).table
    ensures exists first :: Serial(first, CommandsOf(After(run), id), After(run).table[id])
  {
    NoLostUpdate(run, id);
    var rows := After(run).versions[id];
    hide After, Chain, Serial, Legal;
    var first := FirstOf(id, rows, CommandsOf(After(run), id));
    ChainIsSerial(id, rows, CommandsOf(After(run), id), first);
  }

  lemma FirstOf(id: string, rows: seq<Row>, calls: Run) returns (first: Journey)
    requires Chain(id, rows, calls)
    ensures IsNew(first) && rows[0] == RowOf(first)
  {
    first :| IsNew(first) && rows[0] == RowOf(first);
  }

  lemma {:induction false} ChainIsSound(id: string, rows: seq<Row>, calls: Run, k: nat)
    requires Chain(id, rows, calls) && k < |rows|
    ensures Sound(Loaded(rows[k]))
  {
    hide Apply, Loaded, RowOf, Sound, IsNew;
    if k == 0 {
      var first := FirstOf(id, rows, calls);
      NewHasVersionOne(first);
      StoredIsSound(first);
    } else {
      ChainIsSound(id, rows, calls, k - 1);
      assert Follows(rows[k - 1], calls[k - 1], rows[k]);
      ApplyKeepsSound(Loaded(rows[k - 1]), calls[k - 1].command, calls[k - 1].now);
      StoredIsSound(Apply(Loaded(rows[k - 1]), calls[k - 1].command, calls[k - 1].now).journey);
    }
  }

  lemma StoredIsSound(j: Journey)
    requires Sound(j)
    ensures Sound(Loaded(RowOf(j)))
  {
    SaveLoadRoundTrip(j);
    hide Loaded, RowOf;
  }

  lemma ReadyIsSound(w: World, l: Local)
    requires TableInv(w) && l.Ready? && LocalInv(w, l)
    ensures Sound(l.journey)
  {
    hide Apply, Sound, IsNew, Loaded, Chain;
    if l.base.Some? {
      var base := l.base.value;
      ChainIsSound(base.journeyId, w.versions[base.journeyId], w.commands[base.journeyId], base.version - 2);
      ApplyKeepsSound(base, l.call.command, l.call.now);
    } else {
      NewHasVersionOne(l.journey);
    }
  }

  /** A save goes through only under the creation time the journey was loaded with. */
  lemma SaveKeepsCreatedAt(w: World, l: Local)
    requires TableInv(w) && l.Ready? && LocalInv(w, l) && Upsert(w.table, l.journey).Some?
    ensures l.journey.journeyId in w.table ==> w.table[l.journey.journeyId].createdAt == l.journey.createdAt
  {
    if l.base.Some? {
      ApplyKeepsIdentity(l.base.value, l.call.command, l.call.now);
      SaveBase(w, l.journey, l.base.value);
      LoadedKeeps(w.table[l.journey.journeyId]);
    } else {
      NewHasVersionOne(l.journey);
      FreshId(w, l.journey.journeyId);
    }
    hide Apply, Loaded, RowOf, Chain, IsNew;
  }

  /** A save that goes through is in the table afterwards: the journey's row becomes what the client is saving,
      one version on, and no other row changes; a save that does not go through changes none. */
  lemma SaveCommits(run: seq<Event>, c: nat)
    requires Legal(run) && LocalOf(After(run), c).Ready?
    ensures var w, w', j := After(run), Step(After(run), Save(c)), LocalOf(After(run), c).journey;
            && LocalOf(w', c).Idle?
            && (Upsert(w.table, j).None? ==> w'.table == w.table)
            && (Upsert(w.table, j).Some? ==>
                  && w'.table.Keys == w.table.Keys + {j.journeyId}
                  && (forall k | k in w.table && k != j.journeyId :: w'.table[k] == w.table[k])
                  && Loaded(w'.table[j.journeyId]) == j.(version := j.version + 1, lastSwitchReason := 0, events := []))
  {
    hide Legal, After, Loaded, RowOf, Sound, LocalInv, TableInv, Upsert;
    AlwaysInv(run);
    var w, l := After(run), LocalOf(After(run), c);
    ReadyIsSound(w, l);
    UpsertDoes(w.table, l.journey);
    if Upsert(w.table, l.journey).Some? { SaveKeepsCreatedAt(w, l); }
  }

  predicate SameOrigin(j: Journey, k: Journey) {
    j.originLat == k.originLat && j.originLon == k.originLon && j.originStopId == k.originStopId &&
    j.destinationStopId == k.destinationStopId && j.createdAt == k.createdAt
  }

  lemma {:induction false} OriginNeverChanges(j: Journey, calls: Run)
    ensures SameOrigin(j, JourneyRuns.After(j, calls))
    decreases |calls|
  {
    if calls != [] {
      var before, last := JourneyRuns.Before(calls), JourneyRuns.Last(calls);
      OriginNeverChanges(j, before);
      ApplyKeepsIdentity(JourneyRuns.After(j, before), last.command, last.now);
    }
  }

  lemma OriginIsChecked(first: Journey, j: Journey, row: Row)
    requires IsNew(first) && SameOrigin(first, j) && Persisted(Loaded(row)) == Persisted(j)
    ensures Rehydrates(row)
  {
    NewHasVersionOne(first);
    JourneyFields(Loaded(row), j);
  }

  lemma SerialRehydrates(first: Journey, calls: Run, row: Row)
    requires Serial(first, calls, row)
    ensures Rehydrates(row) && Sound(Loaded(row))
  {
    hide JourneyRuns.After, IsNew, Sound, Loaded;
    AlwaysSound(first, calls);
    SoundIgnoresBookkeeping(JourneyRuns.After(first, calls), Loaded(row));
    OriginNeverChanges(first, calls);
    OriginIsChecked(first, JourneyRuns.After(first, calls), row);
  }

  /** Every stored row rehydrates without error, to a journey that satisfies the aggregate's invariant. */
  lemma StoredRowsRehydrate(run: seq<Event>, id: string)
    requires Legal(run) && id in After(run).table
    ensures FindError(After(run).table, id).None? && Sound(Loaded(After(run).table[id]))
  {
    StoredJourneyIsSerial(run, id);
    hide After, Serial, Legal, Sound, Loaded, CommandsOf;
    var first :| Serial(first, CommandsOf(After(run), id), After(run).table[id]);
    SerialRehydrates(first, CommandsOf(After(run), id), After(run).table[id]);
  }

  ghost predicate PromptedWithinBudget(first: Journey, calls: Run) {
    var t := TallyOf(first, calls);
    t.prompts <= 5 * (t.switches + 1) + t.inits && t.boardings <= 1
  }

  lemma SerialWithinBudget(first: Journey, calls: Run, row: Row)
    requires Serial(first, calls, row)
    ensures PromptedWithinBudget(first, calls)
  {
    hide JourneyRuns.After, IsNew, TallyOf;
    PromptsAreBounded(first, calls);
    BoardsAtMostOnce(first, calls);
  }

  /** What holds of runs of one journey holds of what clients commit between them: the stored
      journey was prompted within the budget and boarded at most once. */
  lemma CommittedPromptsAreBounded(run: seq<Event>, id: string)
    requires Legal(run) && id in After(run).table
    ensures exists first :: Serial(first, CommandsOf(After(run), id), After(run).table[id])
                            && PromptedWithinBudget(first, CommandsOf(After(run), id))
  {
    StoredJourneyIsSerial(run, id);
    hide After, Serial, Legal, PromptedWithinBudget, CommandsOf;
    var first :| Serial(first, CommandsOf(After(run), id), After(run).table[id]);
    SerialWithinBudget(first, CommandsOf(After(run), id), After(run).table[id]);
  }
}
