/**
  get_matmul_cache and execute (csrc/cpu/dnnl_helper.cpp): matmul handlers of the same
  class share a cache of oneDNN primitives by M size, and all handlers and the attention
  schedules share one scratchpad.  A handler executes a primitive that was made for the M
  size it asks for, by a handler of its class, and that fits the scratchpad.
 */
module MatmulPrimitives {
  import opened PrimitiveCache

  /** A oneDNN primitive: the handler and M-size key it was made for, and the scratch it needs. */
  datatype Primitive = Primitive(maker: nat, mKey: nat, need: nat)

  /**
    What each handler brings along: its class key, the capacity of the table it makes if it is the
    first of its class, and the scratch its primitive for an M-size key needs.
   */
  datatype Handlers = Handlers(classKey: nat -> nat, cacheSize: nat -> nat, need: (nat, nat) -> nat)

  function Made(hs: Handlers, h: nat, mKey: nat): Primitive { Primitive(h, mKey, hs.need(h, mKey)) }

  const CLASS_CACHE_SIZE := 128

  /**
    `classes` is the static class cache, `tables` the M-size caches it hands out (kept
    alive by the handlers that share them), named by the handler that made them,
    `attached` which one each handler uses, `promised` the sizes attention schedules
    have asked for.
   */
  datatype World = World(size: nat, classes: seq<Pair<nat, nat>>, tables: map<nat, seq<Pair<nat, Primitive>>>,
                         attached: map<nat, nat>, promised: set<nat>)

  datatype Event = Execute(handler: nat, mKey: nat) | ScheduleAttention(request: nat)

  const Start := World(RoundUnits(ALLOCATION_UNIT * 128), [], map[], map[], {})

  /** get_matmul_cache, first part: find or make the M-size cache of the handler's class. */
  function Attach(hs: Handlers, w: World, h: nat): World {
    if h in w.attached then w
    else
      var classes := Touch(w.classes, hs.classKey(h), h, CLASS_CACHE_SIZE);
      var tables := if hs.classKey(h) in Keys(w.classes) then w.tables else w.tables[h := []];
      w.(classes := classes, attached := w.attached[h := classes[0].value], tables := tables)
  }

  ghost predicate Fits(table: seq<Pair<nat, Primitive>>, size: nat) {
    forall i :: 0 <= i < |table| ==> table[i].value.need <= size
  }

  /** Every cached primitive fits the scratchpad; every table a handler can reach exists. */
  ghost predicate Sufficient(hs: Handlers, w: World) {
    && (forall id :: id in w.tables ==> id in w.attached && hs.cacheSize(id) > 0)
    && (forall h {:trigger w.attached[h]} :: h in w.attached ==> w.attached[h] in w.tables)
    && (forall i :: 0 <= i < |w.classes| ==> w.classes[i].value in w.tables)
    && (forall id :: id in w.tables ==> Fits(w.tables[id], w.size))
    && (forall n :: n in w.promised ==> n <= w.size)
  }

  lemma AttachSufficient(hs: Handlers, w: World, h: nat)
    requires hs.cacheSize(h) > 0 && Sufficient(hs, w)
    ensures Sufficient(hs, Attach(hs, w, h)) && h in Attach(hs, w, h).attached
    ensures Attach(hs, w, h).size == w.size && Attach(hs, w, h).promised == w.promised
  {
    if h !in w.attached {
      Attached(hs, w, h);
      var tables := Attach(hs, w, h).tables;
      hide Attach; hide Touch; hide Keys; hide Fits;
      ClassesReachable(w.classes, hs.classKey(h), h, w.tables, tables);
    }
  }

  lemma ClassesReachable(classes: seq<Pair<nat, nat>>, key: nat, h: nat,
                         tables: map<nat, seq<Pair<nat, Primitive>>>, more: map<nat, seq<Pair<nat, Primitive>>>)
    requires forall i :: 0 <= i < |classes| ==> classes[i].value in tables
    requires tables.Keys <= more.Keys && (key in Keys(classes) || h in more)
    ensures forall i :: 0 <= i < |Touch(classes, key, h, CLASS_CACHE_SIZE)| ==>
              Touch(classes, key, h, CLASS_CACHE_SIZE)[i].value in more
  {
    TouchMembers(classes, key, h, CLASS_CACHE_SIZE);
    hide Touch;
    var classes' := Touch(classes, key, h, CLASS_CACHE_SIZE);
    forall i | 0 <= i < |classes'| ensures classes'[i].value in more {
      if classes'[i] in classes {
        var j :| 0 <= j < |classes| && classes[j] == classes'[i];
        assert classes[j].value in tables.Keys;
      }
    }
  }

  /** Touch adds nothing but the made value. */
  lemma TouchMembers<K, V>(view: seq<Pair<K, V>>, key: K, made: V, capacity: nat)
    requires capacity > 0
    ensures forall i :: 0 <= i < |Touch(view, key, made, capacity)| ==>
              Touch(view, key, made, capacity)[i] in view || Touch(view, key, made, capacity)[i] == Pair(key, made)
    ensures key in Keys(view) ==> Touch(view, key, made, capacity)[0] in view
    ensures key !in Keys(view) ==> Touch(view, key, made, capacity)[0].value == made
  {
    if key in Keys(view) { Moved(view, IndexOf(Keys(view), key)); }
  }

  /** One event; the creator's realloc happens only on a miss. */
  function Next(hs: Handlers, w: World, e: Event): World
    requires Sufficient(hs, w) && (e.Execute? ==> hs.cacheSize(e.handler) > 0)
  {
    match e
    case ScheduleAttention(request) => w.(size := Grown(w.size, request), promised := w.promised + {request})
    case Execute(h, mKey) =>
      AttachSufficient(hs, w, h);
      Fetch(hs, Attach(hs, w, h), h, mKey)
  }

  /** get_matmul_cache, second part: look the primitive up, or create it and grow the scratchpad. */
  function Fetch(hs: Handlers, w: World, h: nat, mKey: nat): World
    requires Sufficient(hs, w) && h in w.attached
  {
    var id := w.attached[h];
    w.(size := if mKey in Keys(w.tables[id]) then w.size else Grown(w.size, hs.need(h, mKey)),
       tables := w.tables[id := Touch(w.tables[id], mKey, Made(hs, h, mKey), hs.cacheSize(id))])
  }

  lemma TouchFits(table: seq<Pair<nat, Primitive>>, mKey: nat, made: Primitive, capacity: nat, size: nat)
    requires capacity > 0 && Fits(table, size)
    ensures Fits(Touch(table, mKey, made, capacity), if mKey in Keys(table) then size else Grown(size, made.need))
  {
    hide Grown;
    var table' := Touch(table, mKey, made, capacity);
    if mKey in Keys(table) {
      Moved(table, IndexOf(Keys(table), mKey));
    } else {
      TouchMembers(table, mKey, made, capacity);
    }
    forall i | 0 <= i < |table'| && table'[i] in table ensures table'[i].value.need <= size {
      var j :| 0 <= j < |table| && table[j] == table'[i];
    }
  }

  lemma FetchSufficient(hs: Handlers, w: World, h: nat, mKey: nat)
    requires Sufficient(hs, w) && h in w.attached
    ensures
      var w' := Fetch(hs, w, h, mKey);
      && Sufficient(hs, w') && w.size <= w'.size
      && h in w'.attached && w'.attached[h] in w'.tables && w'.tables[w'.attached[h]] != []
      && Fetched(w', h).value.need <= w'.size
  {
    hide Touch; hide Grown;
    var id := w.attached[h];
    TouchFits(w.tables[id], mKey, Made(hs, h, mKey), hs.cacheSize(id), w.size);
    var w' := Fetch(hs, w, h, mKey);
    forall other | other in w'.tables && other != id ensures Fits(w'.tables[other], w'.size) {
      assert Fits(w.tables[other], w.size);
    }
  }

  /** The key and primitive the execute event has just fetched. */
  function Fetched(w: World, h: nat): Pair<nat, Primitive>
    requires h in w.attached && w.attached[h] in w.tables && w.tables[w.attached[h]] != []
  {
    w.tables[w.attached[h]][0]
  }

  lemma NextSufficient(hs: Handlers, w: World, e: Event)
    requires Sufficient(hs, w) && (e.Execute? ==> hs.cacheSize(e.handler) > 0)
    ensures Sufficient(hs, Next(hs, w, e)) && w.size <= Next(hs, w, e).size
    ensures Executable(Next(hs, w, e), e)
  {
    hide Grown; hide Fetch; hide Attach;
    if e.Execute? {
      AttachSufficient(hs, w, e.handler);
      FetchSufficient(hs, Attach(hs, w, e.handler), e.handler, e.mKey);
    } else {
      var w' := Next(hs, w, e);
      forall id | id in w'.tables ensures Fits(w'.tables[id], w'.size) { assert Fits(w.tables[id], w.size); }
    }
  }

  /** After an execute event, the primitive it is about to run has the scratch it needs. */
  ghost predicate Executable(w: World, e: Event) {
    e.Execute? ==>
      && e.handler in w.attached && w.attached[e.handler] in w.tables && w.tables[w.attached[e.handler]] != []
      && Fetched(w, e.handler).value.need <= w.size
  }

  ghost predicate Legal(hs: Handlers, es: seq<Event>) {
    forall i :: 0 <= i < |es| && es[i].Execute? ==> hs.cacheSize(es[i].handler) > 0
  }

  /** The world after each event of a run. */
  function History(hs: Handlers, w: World, es: seq<Event>): (ws: seq<World>)
    requires Sufficient(hs, w) && Legal(hs, es)
    ensures |ws| == |es| + 1 && ws[0] == w && Sufficient(hs, ws[|es|])
  {
    if es == [] then [w]
    else
      var n := |es| - 1;
      var ws := History(hs, w, es[..n]);
      NextSufficient(hs, ws[n], es[n]);
      ws + [Next(hs, ws[n], es[n])]
  }

  /**
    In any interleaving of handlers and attention schedules the scratchpad never shrinks,
    every primitive is executed with at least the scratch it needs, whichever handler
    created it, and every schedule's request stays satisfied.
   */
  lemma {:induction false} ScratchAlwaysSuffices(hs: Handlers, w: World, es: seq<Event>, n: nat, m: nat)
    requires Sufficient(hs, w) && Legal(hs, es) && n <= m <= |es|
    ensures
      var ws := History(hs, w, es);
      && ws[n].size <= ws[m].size
      && (forall x :: x in ws[n].promised ==> x <= ws[m].size)
      && (m > 0 ==> Executable(ws[m], es[m - 1]))
    decreases |es|, m
  {
    hide Next;
    if es == [] {
    } else if m < |es| {
      HistoryPrefix(hs, w, es, |es| - 1, n);
      HistoryPrefix(hs, w, es, |es| - 1, m);
      ScratchAlwaysSuffices(hs, w, es[..|es| - 1], n, m);
    } else {
      var ws := History(hs, w, es[..m - 1]);
      NextSufficient(hs, ws[m - 1], es[m - 1]);
      if n < m { ScratchAlwaysSuffices(hs, w, es[..m - 1], n, m - 1); }
    }
  }

  lemma HistoryPrefix(hs: Handlers, w: World, es: seq<Event>, k: nat, n: nat)
    requires Sufficient(hs, w) && Legal(hs, es) && es != [] && k == |es| - 1 && n <= k
    ensures History(hs, w, es)[n] == History(hs, w, es[..k])[n]
  {}

  // ----- which primitive is executed -----

  /** The world after a run from the start of the process. */
  function After(hs: Handlers, es: seq<Event>): (w: World)
    requires Legal(hs, es)
    ensures Sufficient(hs, w)
  {
    History(hs, Start, es)[|es|]
  }

  lemma AfterNext(hs: Handlers, es: seq<Event>)
    requires Legal(hs, es) && es != []
    ensures After(hs, es) == Next(hs, After(hs, es[..|es| - 1]), es[|es| - 1])
  {}

  /** Handlers in the order of their first execution. */
  function Firsts(es: seq<Event>): (hs: seq<nat>)
    ensures Distinct(hs)
    ensures forall i :: 0 <= i < |es| && es[i].Execute? ==> es[i].handler in hs
  {
    if es == [] then []
    else
      var n := |es| - 1;
      var before := Firsts(es[..n]);
      if es[n].Execute? && es[n].handler !in before then before + [es[n].handler] else before
  }

  /** The calls of the class cache: one for every handler, at its first execution. */
  function ClassCalls(hs: Handlers, es: seq<Event>): (calls: seq<Pair<nat, nat>>)
    ensures |calls| == |Firsts(es)|
    ensures forall i :: 0 <= i < |calls| ==> calls[i] == Pair(hs.classKey(Firsts(es)[i]), Firsts(es)[i])
  {
    seq(|Firsts(es)|, i requires 0 <= i < |Firsts(es)| => Pair(hs.classKey(Firsts(es)[i]), Firsts(es)[i]))
  }

  /** The calls of one M-size table: the executions of all handlers attached to it. */
  function TableCalls(hs: Handlers, attached: map<nat, nat>, es: seq<Event>, id: nat): seq<Pair<nat, Primitive>> {
    if es == [] then []
    else
      var n := |es| - 1;
      var before := TableCalls(hs, attached, es[..n], id);
      if es[n].Execute? && es[n].handler in attached && attached[es[n].handler] == id
      then before + [Pair(es[n].mKey, Made(hs, es[n].handler, es[n].mKey))]
      else before
  }

  /** The class cache holds what the LRU makes of its calls, and every handler keeps what its call returned. */
  ghost predicate ClassesTracked(hs: Handlers, es: seq<Event>, w: World) {
    w.classes == Run(ClassCalls(hs, es), CLASS_CACHE_SIZE) && Keeps(ClassCalls(hs, es), Firsts(es), w.attached)
  }

  ghost predicate Keeps(calls: seq<Pair<nat, nat>>, firsts: seq<nat>, attached: map<nat, nat>) {
    && (forall h :: h in attached <==> h in firsts)
    && (|calls| == |firsts| && forall i :: 0 <= i < |firsts| ==>
          attached[firsts[i]] == Returned(calls, CLASS_CACHE_SIZE, i))
  }

  /** So does a table. */
  ghost predicate TableTracked(hs: Handlers, attached: map<nat, nat>, es: seq<Event>, id: nat,
                               table: seq<Pair<nat, Primitive>>) {
    hs.cacheSize(id) > 0 && table == Run(TableCalls(hs, attached, es, id), hs.cacheSize(id))
  }

  ghost predicate TablesTracked(hs: Handlers, es: seq<Event>, w: World) {
    forall id :: id in w.tables ==> TableTracked(hs, w.attached, es, id, w.tables[id])
  }

  lemma {:induction false} CallsStable(hs: Handlers, a: map<nat, nat>, b: map<nat, nat>, es: seq<Event>, id: nat)
    requires forall h :: h in Firsts(es) ==> h in a && h in b && a[h] == b[h]
    ensures TableCalls(hs, a, es, id) == TableCalls(hs, b, es, id)
  {
    if es != [] { CallsStable(hs, a, b, es[..|es| - 1], id); }
  }

  lemma {:induction false} NoCalls(hs: Handlers, attached: map<nat, nat>, es: seq<Event>, id: nat)
    requires forall h :: h in Firsts(es) && h in attached ==> attached[h] != id
    ensures TableCalls(hs, attached, es, id) == []
  {
    if es != [] { NoCalls(hs, attached, es[..|es| - 1], id); }
  }

  lemma SameFirsts(hs: Handlers, es: seq<Event>, e: Event)
    requires e.Execute? ==> e.handler in Firsts(es)
    ensures Firsts(es + [e]) == Firsts(es) && ClassCalls(hs, es + [e]) == ClassCalls(hs, es)
  {
    assert (es + [e])[..|es|] == es;
  }

  lemma NewFirst(hs: Handlers, es: seq<Event>, h: nat, mKey: nat)
    requires h !in Firsts(es)
    ensures
      var es' := es + [Execute(h, mKey)];
      Firsts(es') == Firsts(es) + [h] && ClassCalls(hs, es') == ClassCalls(hs, es) + [Pair(hs.classKey(h), h)]
  {
    assert (es + [Execute(h, mKey)])[..|es|] == es;
  }

  lemma AttachTracks(hs: Handlers, es: seq<Event>, w: World, h: nat, mKey: nat)
    requires Sufficient(hs, w) && hs.cacheSize(h) > 0 && ClassesTracked(hs, es, w) && TablesTracked(hs, es, w)
    ensures ClassesTracked(hs, es + [Execute(h, mKey)], Attach(hs, w, h))
    ensures Sufficient(hs, Attach(hs, w, h)) && TablesTracked(hs, es, Attach(hs, w, h))
  {
    AttachSufficient(hs, w, h);
    if h in w.attached {
      SameFirsts(hs, es, Execute(h, mKey));
    } else {
      AttachClasses(hs, es, w, h, mKey);
      AttachTables(hs, es, w, h);
    }
  }

  lemma AttachClasses(hs: Handlers, es: seq<Event>, w: World, h: nat, mKey: nat)
    requires ClassesTracked(hs, es, w) && h !in w.attached
    ensures ClassesTracked(hs, es + [Execute(h, mKey)], Attach(hs, w, h))
  {
    NewFirst(hs, es, h, mKey);
    Attached(hs, w, h);
    hide Keeps; hide Run; hide Firsts; hide Touch; hide ClassCalls; hide Attach; hide Keys; hide Returned;
    CallAnswered(ClassCalls(hs, es), Pair(hs.classKey(h), h));
    KeepsNext(ClassCalls(hs, es), Pair(hs.classKey(h), h), Firsts(es), w.attached, h, Attach(hs, w, h).attached[h]);
  }

  lemma CallAnswered(calls: seq<Pair<nat, nat>>, c: Pair<nat, nat>)
    ensures Run(calls + [c], CLASS_CACHE_SIZE) == Touch(Run(calls, CLASS_CACHE_SIZE), c.key, c.value, CLASS_CACHE_SIZE)
    ensures Touch(Run(calls, CLASS_CACHE_SIZE), c.key, c.value, CLASS_CACHE_SIZE)[0].value
            == Returned(calls + [c], CLASS_CACHE_SIZE, |calls|)
  {
    hide Run; hide Touch; hide Returned; hide Keys;
    PrefixCalls(calls + [c], calls, c);
    RunNext(calls + [c], CLASS_CACHE_SIZE, |calls|);
    LastReturned(calls + [c], CLASS_CACHE_SIZE, |calls|);
  }

  lemma KeepsNext(calls: seq<Pair<nat, nat>>, c: Pair<nat, nat>, firsts: seq<nat>, attached: map<nat, nat>, h: nat,
                  id: nat)
    requires Keeps(calls, firsts, attached) && h !in attached
    requires id == Returned(calls + [c], CLASS_CACHE_SIZE, |calls|)
    ensures Keeps(calls + [c], firsts + [h], attached[h := id])
  {
    hide Returned;
    assert (calls + [c])[..|calls|] == calls;
    forall i | 0 <= i < |calls|
      ensures Returned(calls + [c], CLASS_CACHE_SIZE, i) == Returned(calls, CLASS_CACHE_SIZE, i)
    {
      ReturnedPrefix(calls + [c], CLASS_CACHE_SIZE, |calls|, i);
    }
  }

  lemma PrefixCalls<T>(calls: seq<T>, before: seq<T>, c: T)
    requires calls == before + [c]
    ensures calls[..|before|] == before && calls[..|before| + 1] == calls
  {}

  /** Handlers use existing tables; a handler that has not run yet has made none. */
  lemma Reachable(hs: Handlers, w: World)
    requires Sufficient(hs, w)
    ensures forall h {:trigger w.attached[h]} :: h in w.attached ==> w.attached[h] in w.tables
    ensures forall id :: id in w.tables ==> id in w.attached && hs.cacheSize(id) > 0
  {}

  lemma KeptBy(hs: Handlers, es: seq<Event>, w: World)
    requires ClassesTracked(hs, es, w)
    ensures forall h :: h in w.attached <==> h in Firsts(es)
  {}

  lemma AttachTables(hs: Handlers, es: seq<Event>, w: World, h: nat)
    requires Sufficient(hs, w) && hs.cacheSize(h) > 0 && ClassesTracked(hs, es, w) && TablesTracked(hs, es, w)
    requires h !in w.attached
    ensures TablesTracked(hs, es, Attach(hs, w, h))
  {
    hide Firsts; hide Touch; hide Keys; hide Attach; hide TableTracked; hide Keeps;
    KeptBy(hs, es, w);
    MoreTables(hs, es, w, Attach(hs, w, h), h) by { Attached(hs, w, h); }
  }

  lemma Attached(hs: Handlers, w: World, h: nat)
    requires h !in w.attached
    ensures
      var w' := Attach(hs, w, h);
      && w'.classes == Touch(w.classes, hs.classKey(h), h, CLASS_CACHE_SIZE)
      && h in w'.attached && w'.attached == w.attached[h := w'.classes[0].value]
      && w'.tables == (if hs.classKey(h) in Keys(w.classes) then w.tables else w.tables[h := []])
  {}

  lemma MoreTables(hs: Handlers, es: seq<Event>, w: World, w': World, h: nat)
    requires hs.cacheSize(h) > 0 && TablesTracked(hs, es, w) && h !in w.attached
    requires forall x :: x in Firsts(es) ==> x in w.attached && w.attached[x] in w.tables
    requires h in w'.attached && w'.attached == w.attached[h := w'.attached[h]]
    requires w'.tables == w.tables || (h !in w.tables && w'.tables == w.tables[h := []])
    ensures TablesTracked(hs, es, w')
  {
    hide Firsts; hide TableTracked;
    forall id | id in w'.tables ensures TableTracked(hs, w'.attached, es, id, w'.tables[id]) {
      if id in w.tables {
        SameTable(hs, w.attached, w'.attached, es, id, w.tables[id]);
      } else {
        EmptyTable(hs, w.attached, w'.attached, es, id);
      }
    }
  }

  lemma SameTable(hs: Handlers, a: map<nat, nat>, b: map<nat, nat>, es: seq<Event>, id: nat,
                  table: seq<Pair<nat, Primitive>>)
    requires forall h :: h in Firsts(es) ==> h in a && h in b && a[h] == b[h]
    requires TableTracked(hs, a, es, id, table)
    ensures TableTracked(hs, b, es, id, table)
  {
    CallsStable(hs, a, b, es, id);
  }

  lemma EmptyTable(hs: Handlers, a: map<nat, nat>, b: map<nat, nat>, es: seq<Event>, id: nat)
    requires forall h :: h in Firsts(es) ==> h in a && h in b && a[h] == b[h] != id
    requires hs.cacheSize(id) > 0
    ensures TableTracked(hs, b, es, id, [])
  {
    NoCalls(hs, b, es, id);
  }

  lemma CallsNext(hs: Handlers, attached: map<nat, nat>, es: seq<Event>, e: Event, id: nat)
    ensures
      var before, calls := TableCalls(hs, attached, es, id), TableCalls(hs, attached, es + [e], id);
      if e.Execute? && e.handler in attached && attached[e.handler] == id
      then calls == before + [Pair(e.mKey, Made(hs, e.handler, e.mKey))]
      else calls == before
  {
    assert (es + [e])[..|es|] == es;
  }

  lemma TableNext(hs: Handlers, attached: map<nat, nat>, es: seq<Event>, h: nat, mKey: nat, id: nat,
                  table: seq<Pair<nat, Primitive>>)
    requires TableTracked(hs, attached, es, id, table) && h in attached
    ensures
      var table' := if attached[h] == id then Touch(table, mKey, Made(hs, h, mKey), hs.cacheSize(id)) else table;
      TableTracked(hs, attached, es + [Execute(h, mKey)], id, table')
  {
    hide Touch; hide TableCalls; hide Run;
    CallsNext(hs, attached, es, Execute(h, mKey), id);
    if attached[h] == id {
      var before, calls := TableCalls(hs, attached, es, id), TableCalls(hs, attached, es + [Execute(h, mKey)], id);
      PrefixCalls(calls, before, Pair(mKey, Made(hs, h, mKey)));
      RunNext(calls, hs.cacheSize(id), |before|);
    }
  }

  lemma FetchTracks(hs: Handlers, es: seq<Event>, w: World, h: nat, mKey: nat)
    requires Sufficient(hs, w) && h in w.attached && TablesTracked(hs, es, w)
    ensures TablesTracked(hs, es + [Execute(h, mKey)], Fetch(hs, w, h, mKey))
  {
    Reachable(hs, w);
    hide Touch; hide Sufficient; hide Keys; hide Made; hide TableTracked;
    var es', w' := es + [Execute(h, mKey)], Fetch(hs, w, h, mKey);
    forall id | id in w'.tables ensures TableTracked(hs, w'.attached, es', id, w'.tables[id]) {
      TableNext(hs, w.attached, es, h, mKey, id, w.tables[id]);
    }
  }

  lemma EventTracks(hs: Handlers, es: seq<Event>, w: World, e: Event)
    requires Sufficient(hs, w) && ClassesTracked(hs, es, w) && TablesTracked(hs, es, w)
    requires e.Execute? ==> hs.cacheSize(e.handler) > 0
    ensures Sufficient(hs, Next(hs, w, e))
    ensures ClassesTracked(hs, es + [e], Next(hs, w, e)) && TablesTracked(hs, es + [e], Next(hs, w, e))
  {
    NextSufficient(hs, w, e);
    match e
    case ScheduleAttention(_) =>
      ScheduleTracks(hs, es, w, e);
    case Execute(h, mKey) =>
      AttachSufficient(hs, w, h);
      AttachTracks(hs, es, w, h, mKey);
      FetchSufficient(hs, Attach(hs, w, h), h, mKey);
      FetchTracks(hs, es, Attach(hs, w, h), h, mKey);
      hide TablesTracked; hide Touch; hide Sufficient; hide Attach; hide Run; hide Keeps; hide ClassCalls; hide Firsts;
  }

  lemma ScheduleTracks(hs: Handlers, es: seq<Event>, w: World, e: Event)
    requires Sufficient(hs, w) && ClassesTracked(hs, es, w) && TablesTracked(hs, es, w)
    requires e.ScheduleAttention?
    ensures ClassesTracked(hs, es + [e], Next(hs, w, e)) && TablesTracked(hs, es + [e], Next(hs, w, e))
  {
    SameFirsts(hs, es, e);
    hide Sufficient; hide Keeps; hide ClassCalls; hide Firsts; hide TableTracked;
    forall id | id in w.tables ensures TableTracked(hs, w.attached, es + [e], id, w.tables[id]) {
      assert TableTracked(hs, w.attached, es, id, w.tables[id]);
      TableRests(hs, w.attached, es, e, id, w.tables[id]);
    }
  }

  lemma TableRests(hs: Handlers, attached: map<nat, nat>, es: seq<Event>, e: Event, id: nat,
                   table: seq<Pair<nat, Primitive>>)
    requires e.ScheduleAttention? && TableTracked(hs, attached, es, id, table)
    ensures TableTracked(hs, attached, es + [e], id, table)
  {
    CallsNext(hs, attached, es, e, id);
  }

  lemma {:induction false} AllTracked(hs: Handlers, es: seq<Event>)
    requires Legal(hs, es)
    ensures ClassesTracked(hs, es, After(hs, es)) && TablesTracked(hs, es, After(hs, es))
  {
    hide ClassesTracked; hide TablesTracked; hide Sufficient; hide After; hide Next; hide Firsts; hide History;
    if es == [] {
      NothingTracked(hs);
    } else {
      var n := |es| - 1;
      AllTracked(hs, es[..n]);
      AfterNext(hs, es);
      EventTracks(hs, es[..n], After(hs, es[..n]), es[n]);
      assert es[..n] + [es[n]] == es;
    }
  }

  lemma NothingTracked(hs: Handlers)
    ensures ClassesTracked(hs, [], After(hs, [])) && TablesTracked(hs, [], After(hs, []))
  {}

  lemma {:induction false} CallsOf(hs: Handlers, attached: map<nat, nat>, es: seq<Event>, id: nat, i: nat)
    requires i < |TableCalls(hs, attached, es, id)|
    ensures
      var c := TableCalls(hs, attached, es, id)[i];
      && c.value == Made(hs, c.value.maker, c.key)
      && c.value.maker in attached && attached[c.value.maker] == id && c.value.maker in Firsts(es)
  {
    if i < |TableCalls(hs, attached, es[..|es| - 1], id)| { CallsOf(hs, attached, es[..|es| - 1], id, i); }
  }

  /** Which first execution of the class made the table of handler number `i`: the last miss of its class key. */
  lemma TableMaker(hs: Handlers, es: seq<Event>, i: nat) returns (miss: nat)
    requires Legal(hs, es) && i < |Firsts(es)|
    ensures IsLastMiss(ClassCalls(hs, es), CLASS_CACHE_SIZE, i, miss)
    ensures Firsts(es)[i] in After(hs, es).attached && After(hs, es).attached[Firsts(es)[i]] == Firsts(es)[miss]
  {
    AllTracked(hs, es);
    hide Missed; hide Returned; hide Run; hide After; hide TablesTracked; hide Sufficient; hide Firsts; hide Keys;
    hide IsLastMiss;
    miss := LastMiss(ClassCalls(hs, es), CLASS_CACHE_SIZE, i);
  }

  /**
    Two handlers share a table exactly if they have the same class key and, from the first execution of
    the one to that of the other, the class cache never dropped the class: no first execution of a handler
    of this class, after the earlier one, found more than the cache holds of other classes used since.
   */
  lemma SharesIff(hs: Handlers, es: seq<Event>, a: nat, b: nat)
    requires Legal(hs, es) && a < b < |Firsts(es)|
    ensures
      var w, firsts := After(hs, es), Firsts(es);
      && firsts[a] in w.attached && firsts[b] in w.attached
      && (w.attached[firsts[a]] == w.attached[firsts[b]] <==>
          && hs.classKey(firsts[a]) == hs.classKey(firsts[b])
          && forall n :: a < n <= b && hs.classKey(firsts[n]) == hs.classKey(firsts[a]) ==>
               !Missed(ClassCalls(hs, es), 128, n))
  {
    hide Missed; hide After; hide Firsts;
    var i := TableMaker(hs, es, a);
    var j := TableMaker(hs, es, b);
  }

  /** The run ends with an execution. */
  predicate Executes(es: seq<Event>, h: nat, mKey: nat) { es != [] && es[|es| - 1] == Execute(h, mKey) }

  lemma ExecutedTable(hs: Handlers, es: seq<Event>, h: nat, mKey: nat)
    requires Legal(hs, es) && Executes(es, h, mKey)
    ensures
      var w := After(hs, es);
      && Executable(w, Execute(h, mKey)) && w.attached[h] in w.tables
      && TableTracked(hs, w.attached, es, w.attached[h], w.tables[w.attached[h]])
  {
    AllTracked(hs, es);
    AfterNext(hs, es);
    NextSufficient(hs, After(hs, es[..|es| - 1]), Execute(h, mKey));
    hide Sufficient; hide After; hide ClassesTracked; hide Next; hide TableTracked; hide History;
  }

  lemma LastCall(hs: Handlers, attached: map<nat, nat>, es: seq<Event>, h: nat, mKey: nat)
    requires h in attached && Executes(es, h, mKey)
    ensures
      var calls := TableCalls(hs, attached, es, attached[h]);
      calls != [] && calls[|calls| - 1].key == mKey
    ensures h in Firsts(es)
  {}

  /**
    Whatever handlers and schedules did before: an execution runs what was made at the last call of its table
    for the M-size key it asks for that the cache could not answer.
   */
  lemma ExecutesLastMade(hs: Handlers, es: seq<Event>, h: nat, mKey: nat) returns (miss: nat)
    requires Legal(hs, es) && Executes(es, h, mKey)
    ensures
      var w := After(hs, es);
      && Executable(w, Execute(h, mKey))
      && var calls := TableCalls(hs, w.attached, es, w.attached[h]);
      && calls != [] && calls[|calls| - 1].key == mKey
      && IsLastMiss(calls, hs.cacheSize(w.attached[h]), |calls| - 1, miss)
      && Fetched(w, h) == Pair(mKey, calls[miss].value)
  {
    ExecutedTable(hs, es, h, mKey);
    hide After; hide TableCalls; hide Firsts; hide IsLastMiss; hide Run;
    var w := After(hs, es);
    LastCall(hs, w.attached, es, h, mKey);
    var id := w.attached[h];
    miss := FetchedIs(TableCalls(hs, w.attached, es, id), hs.cacheSize(id), w.tables[id]);
  }

  /** And that is a primitive for this M size, made by a handler of the same class. */
  lemma ExecutesOwnClass(hs: Handlers, es: seq<Event>, h: nat, mKey: nat)
    requires Legal(hs, es) && Executes(es, h, mKey)
    ensures
      var w := After(hs, es);
      && Executable(w, Execute(h, mKey))
      && var maker := Fetched(w, h).value.maker;
      && Fetched(w, h).value == Primitive(maker, mKey, hs.need(maker, mKey))
      && maker in w.attached && w.attached[maker] == w.attached[h] && hs.classKey(maker) == hs.classKey(h)
  {
    var w := After(hs, es);
    var miss := ExecutesLastMade(hs, es, h, mKey);
    hide TableCalls; hide After; hide Firsts; hide Missed;
    CallsOf(hs, w.attached, es, w.attached[h], miss);
    LastCall(hs, w.attached, es, h, mKey);
    SameClass(hs, es, h, Fetched(w, h).value.maker);
  }

  lemma FetchedIs(calls: seq<Pair<nat, Primitive>>, capacity: nat, table: seq<Pair<nat, Primitive>>) returns (miss: nat)
    requires capacity > 0 && calls != [] && table == Run(calls, capacity)
    ensures
      && IsLastMiss(calls, capacity, |calls| - 1, miss)
      && table != [] && table[0] == Pair(calls[|calls| - 1].key, calls[miss].value)
  {
    hide Missed; hide Returned;
    var n := |calls| - 1;
    miss := LastMiss(calls, capacity, n);
    assert calls[..n + 1] == calls;
    LastReturned(calls, capacity, n);
  }

  lemma SameClass(hs: Handlers, es: seq<Event>, h: nat, other: nat)
    requires Legal(hs, es) && h in Firsts(es) && other in Firsts(es)
    requires h in After(hs, es).attached && other in After(hs, es).attached
    requires After(hs, es).attached[h] == After(hs, es).attached[other]
    ensures hs.classKey(h) == hs.classKey(other)
  {
    hide Missed; hide After; hide Firsts;
    var i := IndexOf(Firsts(es), h);
    var j := IndexOf(Firsts(es), other);
    var m := TableMaker(hs, es, i);
    var n := TableMaker(hs, es, j);
  }

  // ----- how large the scratchpad is -----

  /** The sizes asked for: by every schedule, and by every execution that makes a primitive. */
  function Asked(hs: Handlers, es: seq<Event>): seq<nat>
    requires Legal(hs, es)
  {
    if es == [] then []
    else
      var n := |es| - 1;
      Asked(hs, es[..n]) +
        match es[n]
        case ScheduleAttention(request) => [request]
        case Execute(h, mKey) => if Makes(hs, es[..n], h, mKey) then [hs.need(h, mKey)] else []
  }

  /** The table of the handler cannot answer: the key is not among its most recently used ones. */
  predicate Makes(hs: Handlers, es: seq<Event>, h: nat, mKey: nat)
    requires Legal(hs, es) && hs.cacheSize(h) > 0
  {
    AttachSufficient(hs, After(hs, es), h);
    var w := Attach(hs, After(hs, es), h);
    var id := w.attached[h];
    mKey !in Take(Recency(Keys(TableCalls(hs, w.attached, es, id))), hs.cacheSize(id))
  }

  lemma MakesIff(hs: Handlers, es: seq<Event>, h: nat, mKey: nat)
    requires Legal(hs, es) && hs.cacheSize(h) > 0
    ensures
      var w := Attach(hs, After(hs, es), h);
      && h in w.attached && w.attached[h] in w.tables
      && (Makes(hs, es, h, mKey) <==> mKey !in Keys(w.tables[w.attached[h]]))
  {
    AllTracked(hs, es);
    AttachSufficient(hs, After(hs, es), h);
    AttachTracks(hs, es, After(hs, es), h, mKey);
    var w := Attach(hs, After(hs, es), h);
    Reachable(hs, w);
    var id := w.attached[h];
    hide Recency; hide Keys; hide TableCalls; hide After; hide Attach; hide Sufficient; hide ClassesTracked;
    assert TableTracked(hs, w.attached, es, id, w.tables[id]);
    HoldsMostRecent(TableCalls(hs, w.attached, es, id), hs.cacheSize(id));
  }

  lemma NextSize(hs: Handlers, es: seq<Event>)
    requires Legal(hs, es) && es != []
    ensures
      var n := |es| - 1;
      var before, size := After(hs, es[..n]).size, After(hs, es).size;
      match es[n]
      case ScheduleAttention(request) => size == Grown(before, request)
      case Execute(h, mKey) => size == if Makes(hs, es[..n], h, mKey) then Grown(before, hs.need(h, mKey)) else before
  {
    var n := |es| - 1;
    AfterNext(hs, es);
    if es[n].Execute? {
      MakesIff(hs, es[..n], es[n].handler, es[n].mKey);
      AttachSufficient(hs, After(hs, es[..n]), es[n].handler);
    }
    hide After; hide Makes; hide Attach; hide Touch; hide Keys; hide Sufficient; hide Grown;
  }

  lemma {:induction false} LargestAsked(hs: Handlers, es: seq<Event>)
    requires Legal(hs, es)
    ensures Largest(After(hs, es).size, Asked(hs, es))
  {
    hide After; hide Grown; hide Makes; hide Largest;
    if es == [] {
      NothingAsked(hs);
    } else {
      var n := |es| - 1;
      LargestAsked(hs, es[..n]);
      NextSize(hs, es);
      match es[n]
      case ScheduleAttention(request) =>
        LargestGrows(After(hs, es[..n]).size, Asked(hs, es[..n]), request);
      case Execute(h, mKey) =>
        LargestGrows(After(hs, es[..n]).size, Asked(hs, es[..n]), hs.need(h, mKey));
        assert Asked(hs, es[..n]) + [] == Asked(hs, es[..n]);
    }
  }

  lemma NothingAsked(hs: Handlers)
    ensures Largest(After(hs, []).size, Asked(hs, []))
  {}

  /** The scratchpad is as large as the largest request so far, rounded up to whole units, or as at the start. */
  lemma SizeIs(hs: Handlers, es: seq<Event>)
    requires Legal(hs, es)
    ensures
      var size := After(hs, es).size;
      && 524288 <= size && (forall q :: q in Asked(hs, es) ==> RoundUnits(q) <= size)
      && (size == 524288 || exists q :: q in Asked(hs, es) && size == RoundUnits(q))
  {
    hide After; hide Asked;
    LargestAsked(hs, es);
  }

  ghost predicate Largest(size: nat, asked: seq<nat>) {
    && 524288 <= size && (forall q :: q in asked ==> RoundUnits(q) <= size)
    && (size == 524288 || exists q :: q in asked && size == RoundUnits(q))
  }

  lemma LargestGrows(size: nat, asked: seq<nat>, request: nat)
    requires Largest(size, asked)
    ensures Largest(Grown(size, request), asked + [request])
  {
    hide RoundUnits;
    assert request in asked + [request];
    if q :| q in asked && size == RoundUnits(q) { assert q in asked + [request]; }
  }
}
