/**
  The parallel region of AttentionMainLoop (csrc/cpu/cpu_attn_impl.hpp) as N threads
  that take atomic, sequentially consistent steps: reset flags, spin on a barrier,
  take tasks from an atomic counter, publish KV splits behind flags, and reduce
  split groups after spinning on their flags.

  A task is a straight-line program of operations.  What an attention task computes
  depends only on read-only inputs, so its results appear as constants in its
  operations.  `S` is what a reduction keeps in registers (max and sum), `A` is the
  output it accumulates in place in its first slot, `O` is a finished output.

  Initial flags and slots are arbitrary: they are whatever the previous call left.
 */
module SplitProtocol {
  import Powers
  import opened Flatten

  /** One split slot of the reduction scratchpad: split `split` of kv head `head`. */
  datatype Slot = Slot(head: nat, split: nat)

  /** One output row group: token `tok` of request `req`, for the query heads of `head`. */
  datatype Key = Key(head: nat, req: nat, tok: nat)

  datatype Part<S, A> = Part(stat: S, acc: A)

  datatype Op<S, A, O> =
    | Write(key: Key, value: O)               // final_output of an unsplit work item
    | Put(slot: Slot, part: Part<S, A>)       // partial_output: copy into the slot
    | Raise(slot: Slot)                       // partial_output: set the flag
    | Await(slot: Slot)                       // reduce_splits: spin on the flag
    | Load(slot: Slot)                        // first split: take its max and sum
    | Merge(slot: Slot, base: Slot)           // later split: fold it in, output in place
    | Store(base: Slot)                       // write back max and sum
    | WriteReduced(key: Key, base: Slot)      // final_output of a reduction

  /** A reduction task: the slots it folds, in order, and the outputs it writes. */
  datatype Group = Group(slots: seq<Slot>, keys: seq<Key>)

  datatype Params<!S, !A, !O> = Params(
    threads: nat, heads: nat, splits: nat,
    attn: seq<seq<Op<S, A, O>>>,
    groups: seq<Group>,
    merge: (Part<S, A>, Part<S, A>) -> Part<S, A>,
    final: Part<S, A> -> O,
    junk: S)  // what uninitialised registers hold

  function ReduceProg<S, A, O>(g: Group): (p: seq<Op<S, A, O>>)
    requires |g.slots| > 0
    ensures |p| == 2 * |g.slots| + 1 + |g.keys|
  {
    var n := |g.slots|;
    seq(2 * n, i requires 0 <= i < 2 * n =>
      if i % 2 == 0 then Await(g.slots[i / 2])
      else if i == 1 then Load(g.slots[0])
      else Merge(g.slots[i / 2], g.slots[0]))
    + [Store(g.slots[0])]
    + seq(|g.keys|, i requires 0 <= i < |g.keys| => WriteReduced(g.keys[i], g.slots[0]))
  }

  ghost predicate GroupsOk<S, A, O>(p: Params<S, A, O>) {
    forall m :: 0 <= m < |p.groups| ==> |p.groups[m].slots| > 0
  }

  /** Attention tasks come first in the counter's order. */
  function TaskNum<S, A, O>(p: Params<S, A, O>): nat { |p.attn| + |p.groups| }

  function Prog<S, A, O>(p: Params<S, A, O>, t: nat): seq<Op<S, A, O>>
    requires GroupsOk(p) && t < TaskNum(p)
  {
    if t < |p.attn| then p.attn[t] else ReduceProg(p.groups[t - |p.attn|])
  }

  // ----- well-formed programs -----

  /** Where each slot is filled, where it is folded, and where each key is written. */
  datatype Cert = Cert(pub: map<Slot, (nat, nat)>, use: map<Slot, (nat, nat)>, home: map<Key, (nat, nat)>)

  ghost predicate SlotInRange<S, A, O>(p: Params<S, A, O>, slot: Slot) {
    slot.head < p.heads && slot.split < p.splits
  }

  ghost predicate AttnOpOk<S, A, O>(p: Params<S, A, O>, c: Cert, t: nat, i: nat)
    requires t < |p.attn| && i < |p.attn[t]|
  {
    var ops := p.attn[t];
    match ops[i]
    case Write(key, _) => key in c.home && c.home[key] == (t, i)
    case Put(slot, _) =>
      && SlotInRange(p, slot) && slot in c.pub && c.pub[slot] == (t, i)
      && i + 1 < |ops| && ops[i + 1] == Raise(slot)
    case Raise(slot) => SlotInRange(p, slot) && slot in c.pub && i > 0 && c.pub[slot] == (t, i - 1)
    case _ => false
  }

  ghost predicate GroupOk<S, A, O>(p: Params<S, A, O>, c: Cert, m: nat)
    requires m < |p.groups|
  {
    var g := p.groups[m];
    && |g.slots| > 0
    && (forall j :: 0 <= j < |g.slots| ==>
          SlotInRange(p, g.slots[j]) && g.slots[j] in c.use && c.use[g.slots[j]] == (m, j))
    && (forall i :: 0 <= i < |g.keys| ==>
          g.keys[i] in c.home && c.home[g.keys[i]] == (|p.attn| + m, 2 * |g.slots| + 1 + i))
  }

  ghost predicate WellFormed<S, A, O>(p: Params<S, A, O>, c: Cert) {
    && p.threads > 0
    && (forall t, i :: 0 <= t < |p.attn| && 0 <= i < |p.attn[t]| ==> AttnOpOk(p, c, t, i))
    && (forall slot :: SlotInRange(p, slot) ==> slot in c.pub)
    && (forall slot :: slot in c.pub ==>
          var (t, i) := c.pub[slot];
          SlotInRange(p, slot) && t < |p.attn| && i < |p.attn[t]| && p.attn[t][i].Put? && p.attn[t][i].slot == slot)
    && GroupsOk(p)
    && (forall m :: 0 <= m < |p.groups| ==> GroupOk(p, c, m))
    && (forall key :: key in c.home ==>
          var (t, i) := c.home[key];
          t < TaskNum(p) && i < |Prog(p, t)| && WritesKey(Prog(p, t)[i], key))
  }

  ghost predicate WritesKey<S, A, O>(op: Op<S, A, O>, key: Key) {
    (op.Write? || op.WriteReduced?) && op.key == key
  }

  // ----- states and steps -----

  datatype Pc<S> =
    | Resetting(head: nat, split: nat)
    | Arriving
    | Waiting
    | Acquiring
    | Running(task: nat, ip: nat, local: S)
    | Finished

  /** `done` is a history variable: how many operations of each task have run.  No step reads it. */
  datatype State<S, A, O> = State(
    pc: seq<Pc<S>>, guard: nat, counter: nat,
    flags: set<Slot>, slots: map<Slot, Part<S, A>>, out: map<Key, O>,
    done: seq<nat>)

  /** Where thread `k` starts: the reset and the barrier are skipped when nothing is split. */
  ghost predicate StartPc<S, A, O>(p: Params<S, A, O>, k: nat, pc: Pc<S>) {
    pc == if p.splits == 0 then Acquiring else if k < p.heads then Resetting(k, 0) else Arriving
  }

  ghost predicate Init<S, A, O>(p: Params<S, A, O>, s: State<S, A, O>) {
    && |s.pc| == p.threads
    && (forall k :: 0 <= k < p.threads ==> StartPc(p, k, s.pc[k]))
    && s.guard == 0 && s.counter == 0 && s.out == map[]
    && |s.done| == TaskNum(p)
    && (forall t :: 0 <= t < TaskNum(p) ==> s.done[t] == 0)
  }

  function AfterReset<S, A, O>(p: Params<S, A, O>, head: nat, split: nat): Pc<S> {
    if split + 1 < p.splits then Resetting(head, split + 1)
    else if head + p.threads < p.heads then Resetting(head + p.threads, 0)
    else Arriving
  }

  ghost predicate Sane<S, A, O>(p: Params<S, A, O>, s: State<S, A, O>)
    requires GroupsOk(p)
  {
    && |s.pc| == p.threads && |s.done| == TaskNum(p)
    && forall k :: 0 <= k < p.threads && s.pc[k].Running? ==>
         s.pc[k].task < TaskNum(p) && s.pc[k].ip <= |Prog(p, s.pc[k].task)|
  }

  /** The thread is spinning: taking a step leaves everything as it is. */
  ghost predicate Spins<S, A, O>(p: Params<S, A, O>, s: State<S, A, O>, k: nat)
    requires GroupsOk(p) && Sane(p, s) && k < p.threads
  {
    match s.pc[k]
    case Waiting => s.guard != p.threads
    case Running(t, i, _) => i < |Prog(p, t)| && Prog(p, t)[i].Await? && Prog(p, t)[i].slot !in s.flags
    case Finished => true
    case _ => false
  }

  /** Reading a slot that was never filled yields no step (the invariant rules it out). */
  ghost predicate Readable<S, A, O>(op: Op<S, A, O>, s: State<S, A, O>) {
    match op
    case Load(slot) => slot in s.slots
    case Merge(slot, base) => slot in s.slots && base in s.slots
    case Store(base) => base in s.slots
    case WriteReduced(_, base) => base in s.slots
    case _ => true
  }

  /** One operation of a task; thread-local `local` is the reduction's max and sum. */
  ghost function Perform<S, A, O>(p: Params<S, A, O>, op: Op<S, A, O>, s: State<S, A, O>,
                                  local: S): (r: (State<S, A, O>, S))
    requires Readable(op, s)
    ensures r.0 == s.(flags := r.0.flags, slots := r.0.slots, out := r.0.out)
  {
    match op
    case Write(key, value) => (s.(out := s.out[key := value]), local)
    case Put(slot, part) => (s.(slots := s.slots[slot := part]), local)
    case Raise(slot) => (s.(flags := s.flags + {slot}), local)
    case Await(_) => (s, local)
    case Load(slot) => (s, s.slots[slot].stat)
    case Merge(slot, base) =>
      var m := p.merge(Part(local, s.slots[base].acc), s.slots[slot]);
      (s.(slots := s.slots[base := Part(s.slots[base].stat, m.acc)]), m.stat)
    case Store(base) => (s.(slots := s.slots[base := Part(local, s.slots[base].acc)]), local)
    case WriteReduced(key, base) => (s.(out := s.out[key := p.final(s.slots[base])]), local)
  }

  /** The step thread `k` takes; a spinning thread stutters. */
  ghost function Step<S, A, O>(p: Params<S, A, O>, s: State<S, A, O>, k: nat): State<S, A, O>
    requires GroupsOk(p) && Sane(p, s) && k < p.threads
  {
    if Spins(p, s, k) then s
    else match s.pc[k]
      case Resetting(h, sp) => s.(flags := s.flags - {Slot(h, sp)}, pc := s.pc[k := AfterReset(p, h, sp)])
      case Arriving => s.(guard := s.guard + 1, pc := s.pc[k := Waiting])
      case Waiting => s.(pc := s.pc[k := Acquiring])
      case Acquiring =>
        var t := s.counter;
        if t >= TaskNum(p) then s.(counter := t + 1, pc := s.pc[k := Finished])
        else s.(counter := t + 1, pc := s.pc[k := Running(t, 0, p.junk)])
      case Running(t, i, local) =>
        if i == |Prog(p, t)| then s.(pc := s.pc[k := Acquiring])
        else if !Readable(Prog(p, t)[i], s) then s
        else
          var (s', local') := Perform(p, Prog(p, t)[i], s, local);
          s'.(pc := s.pc[k := Running(t, i + 1, local')], done := s.done[t := i + 1])
      case Finished => s
  }

  // ----- what the programs are meant to compute -----

  /** The value published for a slot. */
  ghost function Val<S, A, O>(p: Params<S, A, O>, c: Cert, slot: Slot): Part<S, A>
    requires WellFormed(p, c) && slot in c.pub
  {
    p.attn[c.pub[slot].0][c.pub[slot].1].part
  }

  /** The first `j` published parts of a group, folded left to right. */
  ghost function Fold<S, A, O>(p: Params<S, A, O>, c: Cert, g: Group, j: nat): Part<S, A>
    requires WellFormed(p, c) && 1 <= j <= |g.slots|
    requires forall i :: 0 <= i < |g.slots| ==> g.slots[i] in c.pub
  {
    if j == 1 then Val(p, c, g.slots[0])
    else p.merge(Fold(p, c, g, j - 1), Val(p, c, g.slots[j - 1]))
  }

  ghost function Expected<S, A, O>(p: Params<S, A, O>, c: Cert, key: Key): O
    requires WellFormed(p, c) && key in c.home
  {
    var (t, i) := c.home[key];
    if t < |p.attn| then
      assert AttnOpOk(p, c, t, i);
      p.attn[t][i].value
    else
      var g := p.groups[t - |p.attn|];
      assert GroupOk(p, c, t - |p.attn|);
      p.final(Fold(p, c, g, |g.slots|))
  }

  // ----- the barrier -----

  ghost predicate Arrived<S>(pc: Pc<S>) { !pc.Resetting? && !pc.Arriving? }

  ghost function ArrivedNum<S>(s: seq<Pc<S>>): nat {
    if s == [] then 0 else ArrivedNum(s[..|s| - 1]) + if Arrived(s[|s| - 1]) then 1 else 0
  }

  lemma {:induction false} ArrivedUpdate<S>(s: seq<Pc<S>>, k: nat, x: Pc<S>)
    requires k < |s|
    ensures ArrivedNum(s[k := x]) + (if Arrived(s[k]) then 1 else 0) == ArrivedNum(s) + if Arrived(x) then 1 else 0
  {
    var n := |s| - 1;
    if k == n {
      assert s[k := x][..n] == s[..n];
    } else {
      assert s[k := x][..n] == s[..n][k := x];
      ArrivedUpdate(s[..n], k, x);
    }
  }

  lemma {:induction false} AllArrived<S>(s: seq<Pc<S>>)
    ensures ArrivedNum(s) <= |s|
    ensures ArrivedNum(s) == |s| <==> forall k :: 0 <= k < |s| ==> Arrived(s[k])
    ensures ArrivedNum(s) == 0 <==> forall k :: 0 <= k < |s| ==> !Arrived(s[k])
  {
    if s != [] {
      AllArrived(s[..|s| - 1]);
      assert forall k :: 0 <= k < |s| - 1 ==> s[..|s| - 1][k] == s[k];
    }
  }

  // ----- the invariant -----

  ghost predicate InMain<S>(pc: Pc<S>) { pc.Acquiring? || pc.Running? || pc.Finished? }

  /** Tasks are handed out once, in order, and a task in flight is held by exactly one thread. */
  ghost predicate Tasks<S, A, O>(p: Params<S, A, O>, s: State<S, A, O>)
    requires GroupsOk(p)
  {
    && Sane(p, s)
    && (forall k :: 0 <= k < p.threads && s.pc[k].Running? ==>
          s.pc[k].task < s.counter && s.done[s.pc[k].task] == s.pc[k].ip)
    && (forall k, l :: 0 <= k < l < p.threads && s.pc[k].Running? && s.pc[l].Running? ==> s.pc[k].task != s.pc[l].task)
    && (forall t :: 0 <= t < TaskNum(p) ==>
          && s.done[t] <= |Prog(p, t)|
          && (t >= s.counter ==> s.done[t] == 0)
          && (t < s.counter && s.done[t] < |Prog(p, t)| ==> exists k :: Holds(p, s, k, t)))
    && (forall k :: 0 <= k < p.threads && s.pc[k].Finished? ==> s.counter >= TaskNum(p))
  }

  ghost predicate Holds<S, A, O>(p: Params<S, A, O>, s: State<S, A, O>, k: nat, t: nat) {
    k < p.threads && k < |s.pc| && s.pc[k].Running? && s.pc[k].task == t
  }

  /** The thread whose reset loop visits `head`. */
  ghost function Owner(threads: nat, head: nat): (k: nat)
    requires threads > 0
    ensures k < threads && k <= head
  {
    head % threads
  }

  /** Nobody is in the main loop before everybody has reset its flags. */
  ghost predicate Barrier<S, A, O>(p: Params<S, A, O>, s: State<S, A, O>)
    requires GroupsOk(p) && Sane(p, s) && p.threads > 0
  {
    && (p.splits == 0 ==> forall k :: 0 <= k < p.threads ==> InMain(s.pc[k]))
    && (p.splits > 0 ==> s.guard == ArrivedNum(s.pc))
    && (forall k :: 0 <= k < p.threads && InMain(s.pc[k]) && p.splits > 0 ==> s.guard == p.threads)
    && (s.counter > 0 ==> exists k :: 0 <= k < p.threads && InMain(s.pc[k]))
    && (forall k :: 0 <= k < p.threads && s.pc[k].Resetting? ==>
          s.pc[k].head < p.heads && s.pc[k].split < p.splits && Owner(p.threads, s.pc[k].head) == k)
  }

  /** The thread responsible for the slot has already reset it. */
  ghost predicate ResetDone<S, A, O>(p: Params<S, A, O>, s: State<S, A, O>, slot: Slot)
    requires p.threads > 0 && |s.pc| == p.threads
  {
    var pc := s.pc[Owner(p.threads, slot.head)];
    pc.Resetting? ==> slot.head < pc.head || (slot.head == pc.head && slot.split < pc.split)
  }

  ghost predicate IsDone<S, A, O>(p: Params<S, A, O>, s: State<S, A, O>, t: nat, i: nat)
    requires GroupsOk(p) && Sane(p, s) && t < TaskNum(p)
  {
    i < s.done[t]
  }

  /** A flag that has been reset is up exactly if its publisher has raised it. */
  ghost predicate FlagsOk<S, A, O>(p: Params<S, A, O>, c: Cert, s: State<S, A, O>)
    requires WellFormed(p, c) && Sane(p, s)
  {
    forall slot :: slot in c.pub && ResetDone(p, s, slot) ==>
      (slot in s.flags <==> IsDone(p, s, c.pub[slot].0, c.pub[slot].1 + 1))
  }

  /** How many splits of group `m` its reduction has folded so far. */
  ghost function Folded<S, A, O>(p: Params<S, A, O>, s: State<S, A, O>, m: nat): nat
    requires GroupsOk(p) && Sane(p, s) && m < |p.groups|
  {
    var d := s.done[|p.attn| + m];
    if d <= 2 * |p.groups[m].slots| then d / 2 else |p.groups[m].slots|
  }

  ghost predicate Stored<S, A, O>(p: Params<S, A, O>, s: State<S, A, O>, m: nat)
    requires GroupsOk(p) && Sane(p, s) && m < |p.groups|
  {
    s.done[|p.attn| + m] > 2 * |p.groups[m].slots|
  }

  /** A published slot holds its published value; only its own group's reduction changes it later. */
  ghost predicate SlotsOk<S, A, O>(p: Params<S, A, O>, c: Cert, s: State<S, A, O>)
    requires WellFormed(p, c) && Sane(p, s)
  {
    && (forall slot :: slot in c.pub ==> PublishedOk(p, c, s, slot))
    && (forall m :: 0 <= m < |p.groups| ==> BaseOk(p, c, s, m))
  }

  ghost predicate PublishedOk<S, A, O>(p: Params<S, A, O>, c: Cert, s: State<S, A, O>, slot: Slot)
    requires WellFormed(p, c) && Sane(p, s) && slot in c.pub
  {
    IsDone(p, s, c.pub[slot].0, c.pub[slot].1) ==>
      && slot in s.slots
      && (!(slot in c.use && c.use[slot].1 == 0) ==> s.slots[slot] == Val(p, c, slot))
  }

  /** The first slot of group `m`: published value, then the running fold, then the stored result. */
  ghost predicate BaseOk<S, A, O>(p: Params<S, A, O>, c: Cert, s: State<S, A, O>, m: nat)
    requires WellFormed(p, c) && Sane(p, s) && m < |p.groups|
  {
    var g, f := p.groups[m], Folded(p, s, m);
    var base := g.slots[0];
    assert GroupOk(p, c, m);
    && (IsDone(p, s, c.pub[base].0, c.pub[base].1) && base in s.slots && f == 0 ==> s.slots[base] == Val(p, c, base))
    && (f > 0 ==>
          && base in s.slots
          && s.slots[base].acc == Fold(p, c, g, f).acc
          && s.slots[base].stat == if Stored(p, s, m) then Fold(p, c, g, f).stat else Val(p, c, base).stat)
    && (forall j :: 0 <= j < |g.slots| && (2 * j < s.done[|p.attn| + m]) ==>
          IsDone(p, s, c.pub[g.slots[j]].0, c.pub[g.slots[j]].1 + 1))
  }

  /** The registers of a thread that reduces group `m`. */
  ghost predicate LocalsOk<S, A, O>(p: Params<S, A, O>, c: Cert, s: State<S, A, O>)
    requires WellFormed(p, c) && Sane(p, s)
  {
    forall k :: 0 <= k < p.threads && s.pc[k].Running? && s.pc[k].task >= |p.attn| ==>
      var m := s.pc[k].task - |p.attn|;
      assert GroupOk(p, c, m);
      Folded(p, s, m) > 0 ==> s.pc[k].local == Fold(p, c, p.groups[m], Folded(p, s, m)).stat
  }

  ghost predicate OutOk<S, A, O>(p: Params<S, A, O>, c: Cert, s: State<S, A, O>)
    requires WellFormed(p, c) && Sane(p, s)
  {
    forall key :: key in c.home || key in s.out ==>
      && key in c.home
      && (key in s.out <==> IsDone(p, s, c.home[key].0, c.home[key].1))
      && (key in s.out ==> s.out[key] == Expected(p, c, key))
  }

  ghost predicate Inv<S, A, O>(p: Params<S, A, O>, c: Cert, s: State<S, A, O>)
    requires WellFormed(p, c)
  {
    && Tasks(p, s) && Barrier(p, s) && FlagsOk(p, c, s) && SlotsOk(p, c, s) && LocalsOk(p, c, s) && OutOk(p, c, s)
  }

  // ----- the invariant holds initially -----

  lemma OwnerSelf(k: nat, n: nat)
    requires k < n
    ensures Owner(n, k) == k
  {}

  lemma StartFacts<S, A, O>(p: Params<S, A, O>, s: State<S, A, O>)
    requires GroupsOk(p) && p.threads > 0 && Init(p, s)
    ensures Tasks(p, s) && Barrier(p, s)
    ensures forall k :: 0 <= k < p.threads ==> !s.pc[k].Running?
  {
    hide ReduceProg; hide Owner;
    forall k | 0 <= k < p.threads
      ensures s.pc[k].Resetting? ==>
                s.pc[k] == Resetting(k, 0) && k < p.heads && Owner(p.threads, k) == k && p.splits > 0
      ensures !s.pc[k].Running? && !s.pc[k].Finished?
      ensures p.splits == 0 ==> s.pc[k].Acquiring?
      ensures p.splits > 0 ==> !Arrived(s.pc[k]) && !InMain(s.pc[k])
    {
      assert StartPc(p, k, s.pc[k]);
      OwnerSelf(k, p.threads);
    }
    AllArrived(s.pc);
  }

  lemma NothingReset<S, A, O>(p: Params<S, A, O>, s: State<S, A, O>, slot: Slot)
    requires p.threads > 0 && Init(p, s) && SlotInRange(p, slot)
    ensures !ResetDone(p, s, slot)
  {
    hide Owner;
    assert StartPc(p, Owner(p.threads, slot.head), s.pc[Owner(p.threads, slot.head)]);
  }

  lemma InitInv<S, A, O>(p: Params<S, A, O>, c: Cert, s: State<S, A, O>)
    requires WellFormed(p, c) && Init(p, s)
    ensures Inv(p, c, s)
  {
    hide Owner; hide ReduceProg; hide Val; hide Fold; hide Expected; hide ResetDone;
    StartFacts(p, s);
    forall slot | slot in c.pub ensures !ResetDone(p, s, slot) { NothingReset(p, s, slot); }
    forall m | 0 <= m < |p.groups| ensures BaseOk(p, c, s, m) {
      assert GroupOk(p, c, m);
    }
  }

  // ----- steps outside tasks -----

  lemma NextOwned(h: nat, h': nat, n: nat)
    requires n > 0 && Owner(n, h) == Owner(n, h') && h < h'
    ensures h + n <= h'
  {
    assert h == (h / n) * n + h % n && h' == (h' / n) * n + h' % n;
    var q := h' / n - h / n;
    assert h' - h == q * n;
    Powers.Apart(q, n);
  }

  lemma OwnerShift(h: nat, n: nat)
    requires n > 0
    ensures Owner(n, h + n) == Owner(n, h)
  {
    var q := h / n + 1 - (h + n) / n;
    assert h == (h / n) * n + h % n && h + n == ((h + n) / n) * n + (h + n) % n;
    assert q * n == (h + n) % n - h % n;
    Powers.Apart(q, n);
  }

  /** Steps that touch neither tasks' progress nor slots nor outputs keep everything about them. */
  lemma Frame<S, A, O>(p: Params<S, A, O>, c: Cert, s: State<S, A, O>, s': State<S, A, O>)
    requires WellFormed(p, c) && Sane(p, s) && Sane(p, s')
    requires s'.done == s.done && s'.slots == s.slots && s'.out == s.out
    requires SlotsOk(p, c, s) && OutOk(p, c, s)
    ensures SlotsOk(p, c, s') && OutOk(p, c, s')
  {
    hide Owner; hide ReduceProg; hide Fold; hide Val; hide Expected;
    forall m | 0 <= m < |p.groups| ensures BaseOk(p, c, s', m) {
      assert BaseOk(p, c, s, m) && GroupOk(p, c, m);
      assert Folded(p, s', m) == Folded(p, s, m) && Stored(p, s', m) == Stored(p, s, m);
    }
  }

  /** Moving one thread that is not resetting keeps flags and registers. */
  lemma FlagsFrame<S, A, O>(p: Params<S, A, O>, c: Cert, s: State<S, A, O>, s': State<S, A, O>, k: nat, x: Pc<S>)
    requires WellFormed(p, c) && Sane(p, s) && Sane(p, s') && k < p.threads
    requires s'.pc == s.pc[k := x] && !s.pc[k].Resetting?
    requires s'.done == s.done && s'.flags == s.flags
    requires x.Running? ==> x.task < TaskNum(p) && s.done[x.task] == 0
    requires FlagsOk(p, c, s) && LocalsOk(p, c, s)
    ensures FlagsOk(p, c, s') && LocalsOk(p, c, s')
  {
    hide Owner; hide ReduceProg; hide Fold; hide Val; hide Expected;
    forall slot | slot in c.pub && ResetDone(p, s', slot)
      ensures slot in s'.flags <==> IsDone(p, s', c.pub[slot].0, c.pub[slot].1 + 1)
    {
      assert ResetDone(p, s, slot);
    }
    forall l | 0 <= l < p.threads && s'.pc[l].Running? && s'.pc[l].task >= |p.attn|
      ensures var m := s'.pc[l].task - |p.attn|;
              assert GroupOk(p, c, m);
              Folded(p, s', m) > 0 ==> s'.pc[l].local == Fold(p, c, p.groups[m], Folded(p, s', m)).stat
    {
      assert Folded(p, s', s'.pc[l].task - |p.attn|) == Folded(p, s, s'.pc[l].task - |p.attn|);
      assert GroupOk(p, c, s'.pc[l].task - |p.attn|);
    }
  }

  lemma HoldsOther<S, A, O>(p: Params<S, A, O>, s: State<S, A, O>, s': State<S, A, O>, k: nat, t: nat)
    requires |s.pc| == |s'.pc| == p.threads && k < p.threads
    requires forall l :: 0 <= l < p.threads && l != k ==> s'.pc[l] == s.pc[l]
    requires exists l :: Holds(p, s, l, t)
    ensures Holds(p, s, k, t) || exists l :: Holds(p, s', l, t)
  {
    var l :| Holds(p, s, l, t);
    if l != k { assert Holds(p, s', l, t); }
  }

  /** Moving one thread that neither starts nor drops an unfinished task. */
  lemma TasksMove<S, A, O>(p: Params<S, A, O>, s: State<S, A, O>, s': State<S, A, O>, k: nat, x: Pc<S>)
    requires GroupsOk(p) && Tasks(p, s) && k < p.threads
    requires s'.pc == s.pc[k := x] && s'.done == s.done && s'.counter == s.counter
    requires !x.Running? && !x.Finished?
    requires s.pc[k].Running? ==> s.pc[k].ip == |Prog(p, s.pc[k].task)|
    ensures Tasks(p, s')
  {
    hide ReduceProg;
    forall t | 0 <= t < TaskNum(p) && t < s'.counter && s'.done[t] < |Prog(p, t)|
      ensures exists l :: Holds(p, s', l, t)
    {
      HoldsOther(p, s, s', k, t);
    }
  }

  lemma ResetFlags<S, A, O>(p: Params<S, A, O>, c: Cert, s: State<S, A, O>, s': State<S, A, O>, k: nat)
    requires WellFormed(p, c) && Sane(p, s) && Sane(p, s') && FlagsOk(p, c, s)
    requires k < p.threads && s.pc[k].Resetting? && s.pc[k].split < p.splits && Owner(p.threads, s.pc[k].head) == k
    requires s'.pc == s.pc[k := AfterReset(p, s.pc[k].head, s.pc[k].split)]
    requires s'.flags == s.flags - {Slot(s.pc[k].head, s.pc[k].split)} && s'.done == s.done
    requires forall t :: 0 <= t < TaskNum(p) ==> s.done[t] == 0
    ensures FlagsOk(p, c, s')
  {
    hide Owner; hide ReduceProg; hide GroupOk; hide AttnOpOk;
    var h, sp := s.pc[k].head, s.pc[k].split;
    forall slot | slot in c.pub && ResetDone(p, s', slot)
      ensures slot in s'.flags <==> IsDone(p, s', c.pub[slot].0, c.pub[slot].1 + 1)
    {
      if slot != Slot(h, sp) {
        if Owner(p.threads, slot.head) == k && slot.head > h { NextOwned(h, slot.head, p.threads); }
        assert ResetDone(p, s, slot);
      }
    }
  }

  lemma StepReset<S, A, O>(p: Params<S, A, O>, c: Cert, s: State<S, A, O>, k: nat)
    requires WellFormed(p, c) && Inv(p, c, s) && k < p.threads && s.pc[k].Resetting?
    ensures Inv(p, c, Step(p, s, k))
  {
    hide Owner; hide ReduceProg; hide Fold; hide Val; hide Expected; hide ResetDone; hide Perform;
    hide FlagsOk; hide SlotsOk; hide OutOk; hide GroupOk; hide AttnOpOk;
    var s' := Step(p, s, k);
    var h, sp := s.pc[k].head, s.pc[k].split;
    AllArrived(s.pc);
    ArrivedUpdate(s.pc, k, s'.pc[k]);
    assert !Arrived(s.pc[k]);
    assert forall l :: 0 <= l < p.threads ==> !InMain(s.pc[l]);
    assert s.counter == 0;
    OwnerShift(h, p.threads);
    TasksMove(p, s, s', k, s'.pc[k]);
    assert Barrier(p, s');
    ResetFlags(p, c, s, s', k);
    Frame(p, c, s, s');
  }

  lemma StepArrive<S, A, O>(p: Params<S, A, O>, c: Cert, s: State<S, A, O>, k: nat)
    requires WellFormed(p, c) && Inv(p, c, s) && k < p.threads && s.pc[k].Arriving?
    ensures Inv(p, c, Step(p, s, k))
  {
    hide Owner; hide ReduceProg; hide Fold; hide Val; hide Expected; hide ResetDone; hide Perform;
    hide FlagsOk; hide SlotsOk; hide LocalsOk; hide OutOk; hide GroupOk; hide AttnOpOk;
    var s' := Step(p, s, k);
    AllArrived(s.pc);
    ArrivedUpdate(s.pc, k, Waiting);
    assert !Arrived(s.pc[k]);
    assert forall l :: 0 <= l < p.threads ==> !InMain(s.pc[l]);
    TasksMove(p, s, s', k, Waiting);
    assert Barrier(p, s');
    Frame(p, c, s, s');
    FlagsFrame(p, c, s, s', k, Waiting);
  }

  lemma StepWait<S, A, O>(p: Params<S, A, O>, c: Cert, s: State<S, A, O>, k: nat)
    requires WellFormed(p, c) && Inv(p, c, s) && k < p.threads && s.pc[k].Waiting? && s.guard == p.threads
    ensures Inv(p, c, Step(p, s, k))
  {
    hide Owner; hide ReduceProg; hide Fold; hide Val; hide Expected; hide ResetDone; hide Perform;
    hide FlagsOk; hide SlotsOk; hide LocalsOk; hide OutOk; hide GroupOk; hide AttnOpOk;
    var s' := Step(p, s, k);
    ArrivedUpdate(s.pc, k, Acquiring);
    assert InMain(s'.pc[k]);
    TasksMove(p, s, s', k, Acquiring);
    assert Barrier(p, s');
    Frame(p, c, s, s');
    FlagsFrame(p, c, s, s', k, Acquiring);
  }

  lemma TasksAcquire<S, A, O>(p: Params<S, A, O>, s: State<S, A, O>, s': State<S, A, O>, k: nat)
    requires GroupsOk(p) && Tasks(p, s) && k < p.threads && s.pc[k].Acquiring?
    requires s' == s.(counter := s.counter + 1, pc := s.pc[k :=
                        if s.counter < TaskNum(p) then Running(s.counter, 0, p.junk) else Finished])
    ensures Tasks(p, s')
  {
    hide ReduceProg;
    forall t | 0 <= t < TaskNum(p) && t < s'.counter && s'.done[t] < |Prog(p, t)|
      ensures exists l :: Holds(p, s', l, t)
    {
      if t == s.counter { assert Holds(p, s', k, t); } else { HoldsOther(p, s, s', k, t); }
    }
  }

  lemma BarrierAcquire<S, A, O>(p: Params<S, A, O>, s: State<S, A, O>, s': State<S, A, O>, k: nat, x: Pc<S>)
    requires GroupsOk(p) && p.threads > 0 && Sane(p, s) && Sane(p, s') && Barrier(p, s) && k < p.threads
    requires s.pc[k].Acquiring? && InMain(x) && s'.pc == s.pc[k := x] && s'.guard == s.guard
    ensures Barrier(p, s')
  {
    hide Owner; hide ArrivedNum; hide ReduceProg;
    ArrivedUpdate(s.pc, k, x);
    assert InMain(s.pc[k]) && InMain(s'.pc[k]);
  }

  lemma StepAcquire<S, A, O>(p: Params<S, A, O>, c: Cert, s: State<S, A, O>, k: nat)
    requires WellFormed(p, c) && Inv(p, c, s) && k < p.threads && s.pc[k].Acquiring?
    ensures Inv(p, c, Step(p, s, k))
  {
    hide Owner; hide ReduceProg; hide Fold; hide Val; hide Expected; hide ResetDone; hide Perform; hide Barrier;
    hide FlagsOk; hide SlotsOk; hide LocalsOk; hide OutOk; hide GroupOk; hide AttnOpOk;
    var s' := Step(p, s, k);
    TasksAcquire(p, s, s', k);
    BarrierAcquire(p, s, s', k, s'.pc[k]);
    Frame(p, c, s, s');
    FlagsFrame(p, c, s, s', k, s'.pc[k]);
  }

  lemma StepEnd<S, A, O>(p: Params<S, A, O>, c: Cert, s: State<S, A, O>, k: nat)
    requires WellFormed(p, c) && Inv(p, c, s) && k < p.threads
    requires s.pc[k].Running? && s.pc[k].ip == |Prog(p, s.pc[k].task)|
    ensures Inv(p, c, Step(p, s, k))
  {
    hide Owner; hide ReduceProg; hide Fold; hide Val; hide Expected; hide ResetDone; hide Perform;
    hide FlagsOk; hide SlotsOk; hide LocalsOk; hide OutOk; hide GroupOk; hide AttnOpOk;
    var s' := Step(p, s, k);
    ArrivedUpdate(s.pc, k, Acquiring);
    assert InMain(s.pc[k]) && InMain(s'.pc[k]);
    TasksMove(p, s, s', k, Acquiring);
    assert Barrier(p, s');
    Frame(p, c, s, s');
    FlagsFrame(p, c, s, s', k, Acquiring);
  }

  // ----- steps inside tasks -----

  /** Thread `k` performs the next operation of its task: the parts all such steps share. */
  ghost predicate Runs<S, A, O>(p: Params<S, A, O>, s: State<S, A, O>, s': State<S, A, O>, k: nat)
    requires GroupsOk(p) && Sane(p, s)
  {
    && k < p.threads && s.pc[k].Running? && s.pc[k].ip < |Prog(p, s.pc[k].task)|
    && var (t, i) := (s.pc[k].task, s.pc[k].ip);
    && |s'.pc| == p.threads && s'.pc[k].Running?
    && s'.pc == s.pc[k := Running(t, i + 1, s'.pc[k].local)]
    && s'.done == s.done[t := i + 1]
    && s'.guard == s.guard && s'.counter == s.counter
  }

  ghost function OpOf<S, A, O>(p: Params<S, A, O>, s: State<S, A, O>, k: nat): Op<S, A, O>
    requires GroupsOk(p) && Sane(p, s) && k < p.threads && s.pc[k].Running? && s.pc[k].ip < |Prog(p, s.pc[k].task)|
  {
    Prog(p, s.pc[k].task)[s.pc[k].ip]
  }

  lemma RunTasks<S, A, O>(p: Params<S, A, O>, s: State<S, A, O>, s': State<S, A, O>, k: nat)
    requires GroupsOk(p) && Tasks(p, s) && Runs(p, s, s', k)
    ensures Tasks(p, s')
  {
    hide ReduceProg;
    forall t | 0 <= t < TaskNum(p) && t < s'.counter && s'.done[t] < |Prog(p, t)|
      ensures exists l :: Holds(p, s', l, t)
    {
      if t == s.pc[k].task { assert Holds(p, s', k, t); } else { HoldsOther(p, s, s', k, t); }
    }
  }

  lemma RunBarrier<S, A, O>(p: Params<S, A, O>, s: State<S, A, O>, s': State<S, A, O>, k: nat)
    requires GroupsOk(p) && p.threads > 0 && Tasks(p, s) && Barrier(p, s) && Runs(p, s, s', k) && Sane(p, s')
    ensures Barrier(p, s')
    ensures forall slot :: SlotInRange(p, slot) ==> ResetDone(p, s, slot) && ResetDone(p, s', slot)
  {
    hide Owner; hide ReduceProg; hide Prog;
    ArrivedUpdate(s.pc, k, s'.pc[k]);
    AllArrived(s.pc);
    assert InMain(s.pc[k]) && InMain(s'.pc[k]);
    AllArrived(s'.pc);
  }

  /** Only Raise changes flags, and only the flag whose publisher it is. */
  lemma RunFlags<S, A, O>(p: Params<S, A, O>, c: Cert, s: State<S, A, O>, s': State<S, A, O>, k: nat)
    requires WellFormed(p, c) && Tasks(p, s) && Runs(p, s, s', k) && Sane(p, s') && FlagsOk(p, c, s)
    requires forall slot :: SlotInRange(p, slot) ==> ResetDone(p, s, slot)
    requires s'.flags == if OpOf(p, s, k).Raise? then s.flags + {OpOf(p, s, k).slot} else s.flags
    ensures FlagsOk(p, c, s')
  {
    hide Owner; hide ReduceProg; hide GroupOk; hide ResetDone;
    var t, i := s.pc[k].task, s.pc[k].ip;
    forall slot | slot in c.pub && ResetDone(p, s', slot)
      ensures slot in s'.flags <==> IsDone(p, s', c.pub[slot].0, c.pub[slot].1 + 1)
    {
      var (pt, pi) := c.pub[slot];
      assert AttnOpOk(p, c, pt, pi);
      if t < |p.attn| { assert AttnOpOk(p, c, t, i); }
      assert OpOf(p, s, k).Raise? ==> t < |p.attn| by { if t >= |p.attn| { ReduceOps(p, t - |p.attn|, i); } }
    }
  }

  lemma ReduceOps<S, A, O>(p: Params<S, A, O>, m: nat, i: nat)
    requires GroupsOk(p) && m < |p.groups| && i < |Prog(p, |p.attn| + m)|
    ensures
      var op, g := Prog(p, |p.attn| + m)[i], p.groups[m];
      if i < 2 * |g.slots| then
        if i % 2 == 0 then op == Await(g.slots[i / 2])
        else if i == 1 then op == Load(g.slots[0])
        else op == Merge(g.slots[i / 2], g.slots[0])
      else if i == 2 * |g.slots| then op == Store(g.slots[0])
      else op == WriteReduced(g.keys[i - 2 * |g.slots| - 1], g.slots[0])
  {}

  /** Every write goes to the key whose home it is, and writes what is expected there. */
  lemma RunOut<S, A, O>(p: Params<S, A, O>, c: Cert, s: State<S, A, O>, s': State<S, A, O>, k: nat)
    requires WellFormed(p, c) && Tasks(p, s) && Runs(p, s, s', k) && Sane(p, s') && OutOk(p, c, s)
    requires
      var op := OpOf(p, s, k);
      if op.Write? || op.WriteReduced? then
        && op.key in c.home && c.home[op.key] == (s.pc[k].task, s.pc[k].ip)
        && s'.out == s.out[op.key := Expected(p, c, op.key)]
      else s'.out == s.out
    ensures OutOk(p, c, s')
  {
    hide ReduceProg; hide GroupOk; hide AttnOpOk; hide Expected; hide Prog;
    var t, i := s.pc[k].task, s.pc[k].ip;
    forall key | key in c.home || key in s'.out
      ensures key in c.home
      ensures key in s'.out <==> IsDone(p, s', c.home[key].0, c.home[key].1)
      ensures key in s'.out ==> s'.out[key] == Expected(p, c, key)
    {
      assert key in c.home;
      assert c.home[key] == (t, i) ==> WritesKey(OpOf(p, s, k), key);
    }
  }

  /** An attention task's step changes at most the slot it is about to publish. */
  ghost predicate AttnRuns<S, A, O>(p: Params<S, A, O>, c: Cert, s: State<S, A, O>, s': State<S, A, O>, k: nat)
    requires WellFormed(p, c) && Sane(p, s)
  {
    && Runs(p, s, s', k) && Sane(p, s') && s.pc[k].task < |p.attn|
    && s.done[s.pc[k].task] == s.pc[k].ip
    && var op := OpOf(p, s, k);
       s'.slots == if op.Put? then s.slots[op.slot := op.part] else s.slots
  }

  lemma AttnPublished<S, A, O>(p: Params<S, A, O>, c: Cert, s: State<S, A, O>, s': State<S, A, O>, k: nat, slot: Slot)
    requires WellFormed(p, c) && Sane(p, s) && AttnRuns(p, c, s, s', k)
    requires slot in c.pub && PublishedOk(p, c, s, slot)
    ensures PublishedOk(p, c, s', slot)
  {
    hide ReduceProg; hide GroupOk;
    assert AttnOpOk(p, c, s.pc[k].task, s.pc[k].ip);
    assert AttnOpOk(p, c, c.pub[slot].0, c.pub[slot].1);
  }

  lemma AttnBase<S, A, O>(p: Params<S, A, O>, c: Cert, s: State<S, A, O>, s': State<S, A, O>, k: nat, m: nat)
    requires WellFormed(p, c) && Sane(p, s) && AttnRuns(p, c, s, s', k)
    requires m < |p.groups| && BaseOk(p, c, s, m)
    ensures BaseOk(p, c, s', m)
  {
    hide ReduceProg; hide Fold;
    assert AttnOpOk(p, c, s.pc[k].task, s.pc[k].ip);
    assert GroupOk(p, c, m);
    var base := p.groups[m].slots[0];
    assert AttnOpOk(p, c, c.pub[base].0, c.pub[base].1);
    assert Folded(p, s', m) == Folded(p, s, m) && Stored(p, s', m) == Stored(p, s, m);
    if OpOf(p, s, k).Put? && OpOf(p, s, k).slot == base {
      assert !IsDone(p, s, c.pub[base].0, c.pub[base].1 + 1);
      assert Folded(p, s, m) == 0;
    }
  }

  lemma RunSlotsAttn<S, A, O>(p: Params<S, A, O>, c: Cert, s: State<S, A, O>, s': State<S, A, O>, k: nat)
    requires WellFormed(p, c) && Sane(p, s) && AttnRuns(p, c, s, s', k)
    requires SlotsOk(p, c, s) && LocalsOk(p, c, s)
    ensures SlotsOk(p, c, s') && LocalsOk(p, c, s')
  {
    hide ReduceProg; hide Fold; hide Val; hide BaseOk; hide PublishedOk; hide AttnOpOk; hide OpOf;
    forall m | 0 <= m < |p.groups| ensures BaseOk(p, c, s', m) { AttnBase(p, c, s, s', k, m); }
    forall slot | slot in c.pub ensures PublishedOk(p, c, s', slot) { AttnPublished(p, c, s, s', k, slot); }
    forall l | 0 <= l < p.threads && s'.pc[l].Running? && s'.pc[l].task >= |p.attn|
      ensures Folded(p, s', s'.pc[l].task - |p.attn|) == Folded(p, s, s'.pc[l].task - |p.attn|)
    {}
  }

  // ----- steps of a reduction -----

  /** Thread `k` runs the next operation of the reduction of group `m`. */
  ghost predicate ReduceRuns<S, A, O>(p: Params<S, A, O>, c: Cert, s: State<S, A, O>, s': State<S, A, O>, k: nat,
                                      m: nat)
    requires WellFormed(p, c) && Sane(p, s)
  {
    && Runs(p, s, s', k) && Sane(p, s') && m < |p.groups| && s.pc[k].task == |p.attn| + m
    && s.done[s.pc[k].task] == s.pc[k].ip
    && Readable(OpOf(p, s, k), s)
    && var (r, local) := Perform(p, OpOf(p, s, k), s, s.pc[k].local);
    && s'.slots == r.slots && s'.pc[k].local == local
  }

  lemma ReducePublished<S, A, O>(p: Params<S, A, O>, c: Cert, s: State<S, A, O>, s': State<S, A, O>, k: nat, m: nat,
                                 slot: Slot)
    requires WellFormed(p, c) && Sane(p, s) && ReduceRuns(p, c, s, s', k, m)
    requires slot in c.pub && PublishedOk(p, c, s, slot)
    ensures PublishedOk(p, c, s', slot)
  {
    hide ReduceProg; hide AttnOpOk;
    ReduceOps(p, m, s.pc[k].ip);
    assert GroupOk(p, c, m);
  }

  /** A reduction never touches another group's slots. */
  lemma ReduceOther<S, A, O>(p: Params<S, A, O>, c: Cert, s: State<S, A, O>, s': State<S, A, O>, k: nat, m: nat,
                             m': nat)
    requires WellFormed(p, c) && Sane(p, s) && ReduceRuns(p, c, s, s', k, m)
    requires m' < |p.groups| && m' != m && BaseOk(p, c, s, m')
    ensures BaseOk(p, c, s', m')
    ensures forall slot :: slot in p.groups[m'].slots ==>
              (slot in s'.slots <==> slot in s.slots) && (slot in s.slots ==> s'.slots[slot] == s.slots[slot])
  {
    hide ReduceProg; hide AttnOpOk; hide Fold; hide Val;
    ReduceOps(p, m, s.pc[k].ip);
    assert GroupOk(p, c, m) && GroupOk(p, c, m');
    var base, base' := p.groups[m].slots[0], p.groups[m'].slots[0];
    assert c.use[base] == (m, 0) && c.use[base'] == (m', 0);
    assert Folded(p, s', m') == Folded(p, s, m') && Stored(p, s', m') == Stored(p, s, m');
  }

  /** What the registers hold while group `m` is reduced. */
  ghost predicate RegisterOk<S, A, O>(p: Params<S, A, O>, c: Cert, s: State<S, A, O>, m: nat, local: S)
    requires WellFormed(p, c) && Sane(p, s) && m < |p.groups|
  {
    assert GroupOk(p, c, m);
    Folded(p, s, m) > 0 ==> local == Fold(p, c, p.groups[m], Folded(p, s, m)).stat
  }

  lemma ReduceAwait<S, A, O>(p: Params<S, A, O>, c: Cert, s: State<S, A, O>, s': State<S, A, O>, k: nat, m: nat)
    requires WellFormed(p, c) && Sane(p, s) && ReduceRuns(p, c, s, s', k, m)
    requires BaseOk(p, c, s, m) && RegisterOk(p, c, s, m, s.pc[k].local)
    requires s.pc[k].ip < 2 * |p.groups[m].slots| && s.pc[k].ip % 2 == 0
    requires
      var op := OpOf(p, s, k);
      op.Await? && op.slot in c.pub ==> IsDone(p, s, c.pub[op.slot].0, c.pub[op.slot].1 + 1)
    ensures BaseOk(p, c, s', m) && RegisterOk(p, c, s', m, s'.pc[k].local)
  {
    hide ReduceProg; hide AttnOpOk; hide Val; hide Fold; hide Prog;
    ReduceOps(p, m, s.pc[k].ip);
    assert GroupOk(p, c, m);
    assert Folded(p, s', m) == Folded(p, s, m);
  }

  /** The k-th fold step turns the fold of k splits into the fold of k + 1. */
  lemma ReduceFold<S, A, O>(p: Params<S, A, O>, c: Cert, s: State<S, A, O>, s': State<S, A, O>, k: nat, m: nat)
    requires WellFormed(p, c) && Sane(p, s) && ReduceRuns(p, c, s, s', k, m)
    requires BaseOk(p, c, s, m) && RegisterOk(p, c, s, m, s.pc[k].local)
    requires s.pc[k].ip < 2 * |p.groups[m].slots| && s.pc[k].ip % 2 == 1
    requires forall slot :: slot in c.pub ==> PublishedOk(p, c, s, slot)
    ensures BaseOk(p, c, s', m) && RegisterOk(p, c, s', m, s'.pc[k].local)
  {
    hide ReduceProg; hide AttnOpOk; hide Val; hide Prog; hide TaskNum;
    var g, j := p.groups[m], s.pc[k].ip / 2;
    ReduceOps(p, m, s.pc[k].ip);
    assert GroupOk(p, c, m);
    assert 2 * j < s.done[|p.attn| + m];
    assert IsDone(p, s, c.pub[g.slots[j]].0, c.pub[g.slots[j]].1);
    assert PublishedOk(p, c, s, g.slots[j]);
    assert Folded(p, s, m) == j && Folded(p, s', m) == j + 1;
  }

  lemma ReduceTail<S, A, O>(p: Params<S, A, O>, c: Cert, s: State<S, A, O>, s': State<S, A, O>, k: nat, m: nat)
    requires WellFormed(p, c) && Sane(p, s) && ReduceRuns(p, c, s, s', k, m)
    requires BaseOk(p, c, s, m) && RegisterOk(p, c, s, m, s.pc[k].local)
    requires s.pc[k].ip >= 2 * |p.groups[m].slots|
    ensures BaseOk(p, c, s', m) && RegisterOk(p, c, s', m, s'.pc[k].local)
  {
    hide ReduceProg; hide AttnOpOk; hide Val; hide Fold; hide Prog;
    ReduceOps(p, m, s.pc[k].ip);
    assert GroupOk(p, c, m);
    assert Folded(p, s', m) == Folded(p, s, m) == |p.groups[m].slots|;
  }

  lemma RunSlotsReduce<S, A, O>(p: Params<S, A, O>, c: Cert, s: State<S, A, O>, s': State<S, A, O>, k: nat, m: nat)
    requires WellFormed(p, c) && Tasks(p, s) && ReduceRuns(p, c, s, s', k, m)
    requires SlotsOk(p, c, s) && LocalsOk(p, c, s)
    requires
      var op := OpOf(p, s, k);
      op.Await? && op.slot in c.pub ==> IsDone(p, s, c.pub[op.slot].0, c.pub[op.slot].1 + 1)
    ensures SlotsOk(p, c, s') && LocalsOk(p, c, s')
  {
    hide ReduceProg; hide Fold; hide Val; hide BaseOk; hide PublishedOk; hide AttnOpOk; hide OpOf; hide Perform;
    hide Prog;
    assert RegisterOk(p, c, s, m, s.pc[k].local);
    if s.pc[k].ip >= 2 * |p.groups[m].slots| {
      ReduceTail(p, c, s, s', k, m);
    } else if s.pc[k].ip % 2 == 0 {
      ReduceAwait(p, c, s, s', k, m);
    } else {
      ReduceFold(p, c, s, s', k, m);
    }
    forall m' | 0 <= m' < |p.groups| ensures BaseOk(p, c, s', m') {
      if m' != m { ReduceOther(p, c, s, s', k, m, m'); }
    }
    forall slot | slot in c.pub ensures PublishedOk(p, c, s', slot) { ReducePublished(p, c, s, s', k, m, slot); }
    forall l | 0 <= l < p.threads && s'.pc[l].Running? && s'.pc[l].task >= |p.attn|
      ensures RegisterOk(p, c, s', s'.pc[l].task - |p.attn|, s'.pc[l].local)
    {
      if l != k { assert Folded(p, s', s'.pc[l].task - |p.attn|) == Folded(p, s, s'.pc[l].task - |p.attn|); }
    }
  }

  lemma ReduceReads<S, A, O>(p: Params<S, A, O>, c: Cert, s: State<S, A, O>, m: nat, i: nat)
    requires WellFormed(p, c) && Sane(p, s) && m < |p.groups| && BaseOk(p, c, s, m)
    requires forall slot :: slot in c.pub ==> PublishedOk(p, c, s, slot)
    requires s.done[|p.attn| + m] == i && i < |Prog(p, |p.attn| + m)|
    ensures
      var op := Prog(p, |p.attn| + m)[i];
      Readable(op, s) && (op.Merge? || op.Load? ==> op.slot in c.pub && s.slots[op.slot] == Val(p, c, op.slot))
  {
    hide ReduceProg; hide Val; hide Fold; hide Prog; hide AttnOpOk;
    ReduceOps(p, m, i);
    assert GroupOk(p, c, m);
    var g := p.groups[m];
    assert i == 1 ==> Folded(p, s, m) == 0;
    if i > 0 {
      assert IsDone(p, s, c.pub[g.slots[0]].0, c.pub[g.slots[0]].1 + 1);
      assert PublishedOk(p, c, s, g.slots[0]);
    }
    if i < 2 * |g.slots| && i % 2 == 1 {
      assert 2 * (i / 2) < s.done[|p.attn| + m];
      assert IsDone(p, s, c.pub[g.slots[i / 2]].0, c.pub[g.slots[i / 2]].1 + 1);
      assert PublishedOk(p, c, s, g.slots[i / 2]);
    }
  }

  /** In every reachable state, whatever the next operation reads has been published. */
  lemma ReadsPublished<S, A, O>(p: Params<S, A, O>, c: Cert, s: State<S, A, O>, k: nat)
    requires WellFormed(p, c) && Inv(p, c, s)
    requires k < p.threads && s.pc[k].Running? && s.pc[k].ip < |Prog(p, s.pc[k].task)|
    ensures Readable(OpOf(p, s, k), s)
    ensures
      var op := OpOf(p, s, k);
      op.Merge? || op.Load? ==> op.slot in c.pub && s.slots[op.slot] == Val(p, c, op.slot)
  {
    hide ReduceProg; hide Val; hide Fold; hide FlagsOk; hide OutOk; hide Barrier; hide LocalsOk; hide BaseOk;
    hide PublishedOk; hide GroupOk;
    var t, i := s.pc[k].task, s.pc[k].ip;
    if t < |p.attn| {
      assert AttnOpOk(p, c, t, i);
    } else {
      ReduceReads(p, c, s, t - |p.attn|, i);
    }
  }

  /** A reduced output is written from the complete fold of its group. */
  lemma WritesReduced<S, A, O>(p: Params<S, A, O>, c: Cert, s: State<S, A, O>, m: nat, n: nat)
    requires WellFormed(p, c) && Sane(p, s) && m < |p.groups| && n < |p.groups[m].keys| && BaseOk(p, c, s, m)
    requires s.done[|p.attn| + m] == 2 * |p.groups[m].slots| + 1 + n
    ensures
      var g := p.groups[m];
      && g.keys[n] in c.home && c.home[g.keys[n]] == (|p.attn| + m, 2 * |g.slots| + 1 + n)
      && |g.slots| > 0 && g.slots[0] in s.slots && p.final(s.slots[g.slots[0]]) == Expected(p, c, g.keys[n])
  {
    hide ReduceProg; hide Val; hide Fold; hide AttnOpOk;
    var g := p.groups[m];
    assert GroupOk(p, c, m);
    assert Folded(p, s, m) == |g.slots| && Stored(p, s, m);
    assert s.slots[g.slots[0]] == Fold(p, c, g, |g.slots|);
  }

  lemma WritesExpected<S, A, O>(p: Params<S, A, O>, c: Cert, s: State<S, A, O>, k: nat)
    requires WellFormed(p, c) && Tasks(p, s) && SlotsOk(p, c, s)
    requires k < p.threads && s.pc[k].Running? && s.pc[k].ip < |Prog(p, s.pc[k].task)|
    requires OpOf(p, s, k).Write? || OpOf(p, s, k).WriteReduced?
    requires Readable(OpOf(p, s, k), s)
    ensures
      var op := OpOf(p, s, k);
      && op.key in c.home && c.home[op.key] == (s.pc[k].task, s.pc[k].ip)
      && Perform(p, op, s, s.pc[k].local).0.out == s.out[op.key := Expected(p, c, op.key)]
  {
    hide ReduceProg; hide Val; hide Fold; hide BaseOk; hide PublishedOk; hide GroupOk;
    var t, i := s.pc[k].task, s.pc[k].ip;
    if t < |p.attn| {
      assert AttnOpOk(p, c, t, i);
    } else {
      ReduceOps(p, t - |p.attn|, i);
      WritesReduced(p, c, s, t - |p.attn|, i - 2 * |p.groups[t - |p.attn|].slots| - 1);
    }
  }

  lemma StepRun<S, A, O>(p: Params<S, A, O>, c: Cert, s: State<S, A, O>, k: nat)
    requires WellFormed(p, c) && Inv(p, c, s) && k < p.threads
    requires s.pc[k].Running? && s.pc[k].ip < |Prog(p, s.pc[k].task)| && !Spins(p, s, k)
    ensures Inv(p, c, Step(p, s, k))
  {
    hide ReduceProg; hide Val; hide Fold; hide Expected; hide FlagsOk; hide OutOk; hide LocalsOk; hide SlotsOk;
    hide Barrier; hide AttnOpOk; hide GroupOk; hide ResetDone;
    var s', op, t := Step(p, s, k), OpOf(p, s, k), s.pc[k].task;
    ReadsPublished(p, c, s, k);
    RunTasks(p, s, s', k);
    RunBarrier(p, s, s', k);
    RunFlags(p, c, s, s', k);
    if op.Write? || op.WriteReduced? { WritesExpected(p, c, s, k); }
    RunOut(p, c, s, s', k);
    if t < |p.attn| {
      AttnOps(p, c, t, s.pc[k].ip);
      RunSlotsAttn(p, c, s, s', k);
    } else {
      if op.Await? && op.slot in c.pub { AwaitMeansRaised(p, c, s, op.slot); }
      RunSlotsReduce(p, c, s, s', k, t - |p.attn|);
    }
  }

  lemma AttnOps<S, A, O>(p: Params<S, A, O>, c: Cert, t: nat, i: nat)
    requires WellFormed(p, c) && t < |p.attn| && i < |p.attn[t]|
    ensures p.attn[t][i].Write? || p.attn[t][i].Put? || p.attn[t][i].Raise?
  {
    assert AttnOpOk(p, c, t, i);
  }

  lemma AwaitMeansRaised<S, A, O>(p: Params<S, A, O>, c: Cert, s: State<S, A, O>, slot: Slot)
    requires WellFormed(p, c) && Sane(p, s) && FlagsOk(p, c, s)
    requires forall x :: SlotInRange(p, x) ==> ResetDone(p, s, x)
    requires slot in c.pub && slot in s.flags
    ensures IsDone(p, s, c.pub[slot].0, c.pub[slot].1 + 1)
  {}

  // ----- every run -----

  lemma SpinsStutter<S, A, O>(p: Params<S, A, O>, s: State<S, A, O>, k: nat)
    requires GroupsOk(p) && Sane(p, s) && k < p.threads
    ensures Spins(p, s, k) ==> Step(p, s, k) == s
  {
    hide ReduceProg;
  }

  lemma StepInv<S, A, O>(p: Params<S, A, O>, c: Cert, s: State<S, A, O>, k: nat)
    requires WellFormed(p, c) && Inv(p, c, s) && k < p.threads
    ensures Inv(p, c, Step(p, s, k))
  {
    hide FlagsOk; hide SlotsOk; hide LocalsOk; hide OutOk; hide Barrier; hide ReduceProg; hide AttnOpOk; hide GroupOk;
    hide Perform; hide Step;
    SpinsStutter(p, s, k);
    if !Spins(p, s, k) {
      match s.pc[k]
      case Resetting(_, _) => StepReset(p, c, s, k);
      case Arriving => StepArrive(p, c, s, k);
      case Waiting => StepWait(p, c, s, k);
      case Acquiring => StepAcquire(p, c, s, k);
      case Running(t, i, _) => if i == |Prog(p, t)| { StepEnd(p, c, s, k); } else { StepRun(p, c, s, k); }
      case Finished =>
    }
  }

  ghost predicate ValidSchedule<S, A, O>(p: Params<S, A, O>, sched: seq<nat>) {
    forall i :: 0 <= i < |sched| ==> sched[i] < p.threads
  }

  /** Any interleaving: the threads take steps in the order `sched` says. */
  ghost function Exec<S, A, O>(p: Params<S, A, O>, c: Cert, s: State<S, A, O>, sched: seq<nat>): (s': State<S, A, O>)
    requires WellFormed(p, c) && Inv(p, c, s) && ValidSchedule(p, sched)
    ensures Inv(p, c, s')
  {
    if sched == [] then s
    else
      var n := |sched| - 1;
      var m := Exec(p, c, s, sched[..n]);
      StepInv(p, c, m, sched[n]);
      Step(p, m, sched[n])
  }

  ghost predicate AllFinished<S, A, O>(s: State<S, A, O>) {
    forall k :: 0 <= k < |s.pc| ==> s.pc[k].Finished?
  }

  /**
    Safety and completeness of the protocol: when all threads have left, in any
    interleaving and from any stale flags and slots, every key has its expected output.
   */
  lemma FinishedOutputs<S, A, O>(p: Params<S, A, O>, c: Cert, s0: State<S, A, O>, sched: seq<nat>)
    requires WellFormed(p, c) && Init(p, s0) && ValidSchedule(p, sched)
    ensures Inv(p, c, s0)
    ensures
      var s := Exec(p, c, s0, sched);
      AllFinished(s) ==> s.out.Keys == c.home.Keys && forall key :: key in c.home ==> s.out[key] == Expected(p, c, key)
  {
    InitInv(p, c, s0);
    var s := Exec(p, c, s0, sched);
    if AllFinished(s) {
      assert s.pc[0].Finished?;
      forall t | 0 <= t < TaskNum(p) ensures s.done[t] == |Prog(p, t)| {
        assert forall k :: !Holds(p, s, k, t);
      }
      forall key ensures key in s.out <==> key in c.home {}
    }
  }

  /** No output is written twice. */
  lemma WrittenOnce<S, A, O>(p: Params<S, A, O>, c: Cert, s: State<S, A, O>, k: nat)
    requires WellFormed(p, c) && Inv(p, c, s)
    requires k < p.threads && s.pc[k].Running? && s.pc[k].ip < |Prog(p, s.pc[k].task)|
    requires OpOf(p, s, k).Write? || OpOf(p, s, k).WriteReduced?
    ensures OpOf(p, s, k).key !in s.out
  {
    ReadsPublished(p, c, s, k);
    WritesExpected(p, c, s, k);
  }

  /** Once any thread is in the main loop no stale flag is left. */
  lemma NoStaleFlag<S, A, O>(p: Params<S, A, O>, c: Cert, s: State<S, A, O>, k: nat, slot: Slot)
    requires WellFormed(p, c) && Inv(p, c, s) && k < p.threads && InMain(s.pc[k]) && SlotInRange(p, slot)
    ensures slot in s.flags <==> IsDone(p, s, c.pub[slot].0, c.pub[slot].1 + 1)
    ensures s.counter == 0 ==> slot !in s.flags
  {
    AllArrived(s.pc);
    assert ResetDone(p, s, slot);
  }

  // ----- progress -----

  /** Flags a thread still has to reset. */
  ghost function ResetLeft<S, A, O>(p: Params<S, A, O>, head: nat, split: nat): nat
    requires p.threads > 0
    decreases p.heads - head
  {
    if head >= p.heads || split > p.splits then 0
    else p.splits - split + ResetLeft(p, head + p.threads, 0)
  }

  ghost function PcWork<S, A, O>(p: Params<S, A, O>, pc: Pc<S>): nat
    requires GroupsOk(p) && p.threads > 0
  {
    match pc
    case Resetting(h, sp) => 3 + ResetLeft(p, h, sp)
    case Arriving => 3
    case Waiting => 2
    case Acquiring => 1
    case Running(t, i, _) => if t < TaskNum(p) && i <= |Prog(p, t)| then |Prog(p, t)| - i + 2 else 0
    case Finished => 0
  }

  ghost function PcsWork<S, A, O>(p: Params<S, A, O>, pcs: seq<Pc<S>>): nat
    requires GroupsOk(p) && p.threads > 0
  {
    if pcs == [] then 0 else PcsWork(p, pcs[..|pcs| - 1]) + PcWork(p, pcs[|pcs| - 1])
  }

  lemma {:induction false} PcsWorkUpdate<S, A, O>(p: Params<S, A, O>, pcs: seq<Pc<S>>, k: nat, x: Pc<S>)
    requires GroupsOk(p) && p.threads > 0 && k < |pcs|
    ensures PcsWork(p, pcs[k := x]) + PcWork(p, pcs[k]) == PcsWork(p, pcs) + PcWork(p, x)
  {
    var n := |pcs| - 1;
    if k == n {
      assert pcs[k := x][..n] == pcs[..n];
    } else {
      assert pcs[k := x][..n] == pcs[..n][k := x];
      PcsWorkUpdate(p, pcs[..n], k, x);
    }
  }

  /** Work in tasks nobody has taken yet. */
  ghost function Pool<S, A, O>(p: Params<S, A, O>, t: nat): nat
    requires GroupsOk(p)
    decreases TaskNum(p) - t
  {
    if t >= TaskNum(p) then 0 else |Prog(p, t)| + 2 + Pool(p, t + 1)
  }

  ghost function Work<S, A, O>(p: Params<S, A, O>, s: State<S, A, O>): nat
    requires GroupsOk(p) && p.threads > 0
  {
    PcsWork(p, s.pc) + Pool(p, s.counter)
  }

  lemma StepWork<S, A, O>(p: Params<S, A, O>, s: State<S, A, O>, k: nat)
    requires GroupsOk(p) && p.threads > 0 && Sane(p, s) && k < p.threads && !Spins(p, s, k)
    requires s.pc[k].Resetting? ==> s.pc[k].head < p.heads && s.pc[k].split < p.splits
    requires s.pc[k].Running? && s.pc[k].ip < |Prog(p, s.pc[k].task)| ==> Readable(OpOf(p, s, k), s)
    ensures
      var s' := Step(p, s, k);
      && |s'.pc| == p.threads && s'.pc == s.pc[k := s'.pc[k]]
      && PcWork(p, s'.pc[k]) + Pool(p, s'.counter) < PcWork(p, s.pc[k]) + Pool(p, s.counter)
  {
    hide ReduceProg;
  }

  /** Every step that is not a spin uses up work. */
  lemma StepUsesWork<S, A, O>(p: Params<S, A, O>, c: Cert, s: State<S, A, O>, k: nat)
    requires WellFormed(p, c) && Inv(p, c, s) && k < p.threads && !Spins(p, s, k)
    ensures Work(p, Step(p, s, k)) < Work(p, s)
  {
    hide ReduceProg; hide FlagsOk; hide SlotsOk; hide LocalsOk; hide OutOk; hide GroupOk; hide AttnOpOk; hide Owner;
    hide Step; hide Prog; hide Pool; hide PcWork; hide OpOf;
    var s' := Step(p, s, k);
    if s.pc[k].Running? && s.pc[k].ip < |Prog(p, s.pc[k].task)| { ReadsPublished(p, c, s, k); }
    StepWork(p, s, k);
    PcsWorkUpdate(p, s.pc, k, s'.pc[k]);
  }

  /** In a state with unfinished threads, some thread can take a step that is not a spin. */
  lemma NoDeadlock<S, A, O>(p: Params<S, A, O>, c: Cert, s: State<S, A, O>) returns (k: nat)
    requires WellFormed(p, c) && Inv(p, c, s) && !AllFinished(s)
    ensures k < p.threads && !Spins(p, s, k)
  {
    hide ReduceProg; hide SlotsOk; hide LocalsOk; hide OutOk; hide Owner;
    k :| 0 <= k < p.threads && !s.pc[k].Finished?;
    if !Spins(p, s, k) { return; }
    AllArrived(s.pc);
    if s.pc[k].Waiting? {
      // somebody has not arrived yet, and resetting or arriving never blocks
      k :| 0 <= k < p.threads && !Arrived(s.pc[k]);
    } else {
      // a reduction waits for a flag whose publisher took its task earlier
      var slot := OpOf(p, s, k).slot;
      var t := s.pc[k].task;
      k := Publisher(p, c, s, k, slot);
    }
  }

  /** A reduction that waits for a flag leaves its publisher running, and that thread is not spinning. */
  lemma Publisher<S, A, O>(p: Params<S, A, O>, c: Cert, s: State<S, A, O>, k: nat, slot: Slot) returns (l: nat)
    requires WellFormed(p, c) && Inv(p, c, s) && k < p.threads && s.pc[k].Running? && Spins(p, s, k)
    requires OpOf(p, s, k) == Await(slot)
    ensures slot in c.pub && Holds(p, s, l, c.pub[slot].0) && s.pc[l].ip <= c.pub[slot].1 + 1 && !Spins(p, s, l)
  {
    hide ReduceProg; hide SlotsOk; hide LocalsOk; hide OutOk; hide Owner; hide ResetDone;
    var t, i := s.pc[k].task, s.pc[k].ip;
    if t < |p.attn| { AttnOps(p, c, t, i); }
    ReduceOps(p, t - |p.attn|, i);
    assert GroupOk(p, c, t - |p.attn|);
    NoStaleFlag(p, c, s, k, slot);
    var (pt, pi) := c.pub[slot];
    assert AttnOpOk(p, c, pt, pi);
    l :| Holds(p, s, l, pt);
    AttnOps(p, c, pt, s.pc[l].ip);
  }

  /** How many steps of a run are not spins. */
  ghost function Moves<S, A, O>(p: Params<S, A, O>, c: Cert, s: State<S, A, O>, sched: seq<nat>): nat
    requires WellFormed(p, c) && Inv(p, c, s) && ValidSchedule(p, sched)
  {
    if sched == [] then 0
    else
      var n := |sched| - 1;
      Moves(p, c, s, sched[..n]) + if Spins(p, Exec(p, c, s, sched[..n]), sched[n]) then 0 else 1
  }

  /** No interleaving can go on for ever: the steps that are not spins are bounded up front. */
  lemma {:induction false} BoundedMoves<S, A, O>(p: Params<S, A, O>, c: Cert, s: State<S, A, O>, sched: seq<nat>)
    requires WellFormed(p, c) && Inv(p, c, s) && ValidSchedule(p, sched)
    ensures Moves(p, c, s, sched) + Work(p, Exec(p, c, s, sched)) <= Work(p, s)
  {
    if sched != [] {
      var n := |sched| - 1;
      BoundedMoves(p, c, s, sched[..n]);
      var m := Exec(p, c, s, sched[..n]);
      hide Work; hide Inv; hide WellFormed;
      if !Spins(p, m, sched[n]) { StepUsesWork(p, c, m, sched[n]); }
    }
  }

  /** From every reachable state the region can be driven to its end. */
  lemma {:induction false} CanFinish<S, A, O>(p: Params<S, A, O>, c: Cert, s: State<S, A, O>) returns (sched: seq<nat>)
    requires WellFormed(p, c) && Inv(p, c, s)
    ensures ValidSchedule(p, sched) && AllFinished(Exec(p, c, s, sched))
    decreases Work(p, s)
  {
    if AllFinished(s) {
      sched := [];
    } else {
      var k := NoDeadlock(p, c, s);
      StepUsesWork(p, c, s, k);
      StepInv(p, c, s, k);
      var rest := CanFinish(p, c, Step(p, s, k));
      sched := [k] + rest;
      ExecCons(p, c, s, k, rest);
    }
  }

  lemma {:induction false} ExecCons<S, A, O>(p: Params<S, A, O>, c: Cert, s: State<S, A, O>, k: nat, rest: seq<nat>)
    requires WellFormed(p, c) && Inv(p, c, s) && k < p.threads && ValidSchedule(p, rest)
    requires Inv(p, c, Step(p, s, k))
    ensures ValidSchedule(p, [k] + rest)
    ensures Exec(p, c, s, [k] + rest) == Exec(p, c, Step(p, s, k), rest)
  {
    hide Inv; hide WellFormed; hide Step;
    var n := |rest|;
    assert ([k] + rest)[..n] == if n == 0 then [] else [k] + rest[..n - 1];
    if n > 0 {
      ExecCons(p, c, s, k, rest[..n - 1]);
    }
  }

  // ----- fair runs -----

  /** A round: every thread gets at least one turn. */
  ghost predicate Fair<S, A, O>(p: Params<S, A, O>, round: seq<nat>) {
    ValidSchedule(p, round) && forall k: nat :: k < p.threads ==> k in round
  }

  lemma {:induction false} MovesPrefix<S, A, O>(p: Params<S, A, O>, c: Cert, s: State<S, A, O>, sched: seq<nat>, i: nat)
    requires WellFormed(p, c) && Inv(p, c, s) && ValidSchedule(p, sched) && i <= |sched|
    ensures Moves(p, c, s, sched[..i]) <= Moves(p, c, s, sched)
    decreases |sched|
  {
    hide Inv; hide WellFormed; hide Spins; hide Exec; hide Sane;
    if i < |sched| {
      var n := |sched| - 1;
      MovesPrefix(p, c, s, sched[..n], i);
      assert sched[..n][..i] == sched[..i];
    } else {
      assert sched[..i] == sched;
    }
  }

  /** A run of spins changes nothing. */
  lemma {:induction false} NoMoveNoChange<S, A, O>(p: Params<S, A, O>, c: Cert, s: State<S, A, O>, sched: seq<nat>)
    requires WellFormed(p, c) && Inv(p, c, s) && ValidSchedule(p, sched) && Moves(p, c, s, sched) == 0
    ensures Exec(p, c, s, sched) == s
  {
    if sched != [] {
      var n := |sched| - 1;
      NoMoveNoChange(p, c, s, sched[..n]);
      SpinsStutter(p, s, sched[n]);
    }
  }

  /** A round that starts unfinished contains a move. */
  lemma RoundMoves<S, A, O>(p: Params<S, A, O>, c: Cert, s: State<S, A, O>, round: seq<nat>)
    requires WellFormed(p, c) && Inv(p, c, s) && Fair(p, round) && !AllFinished(s)
    ensures Work(p, Exec(p, c, s, round)) < Work(p, s)
  {
    hide Inv; hide WellFormed; hide Work; hide Spins;
    var k := NoDeadlock(p, c, s);
    assert k in round;
    var i :| 0 <= i < |round| && round[i] == k;
    var before, upTo := round[..i], round[..i + 1];
    assert upTo[..i] == before;
    if Moves(p, c, s, before) == 0 { NoMoveNoChange(p, c, s, before); }
    MovesPrefix(p, c, s, round, i + 1);
    BoundedMoves(p, c, s, round);
  }

  lemma {:induction false} ExecAppend<S, A, O>(p: Params<S, A, O>, c: Cert, s: State<S, A, O>, a: seq<nat>, b: seq<nat>)
    requires WellFormed(p, c) && Inv(p, c, s) && ValidSchedule(p, a) && ValidSchedule(p, b)
    ensures ValidSchedule(p, a + b) && Exec(p, c, s, a + b) == Exec(p, c, Exec(p, c, s, a), b)
    decreases |b|
  {
    hide Inv; hide WellFormed; hide Step;
    if b == [] {
      assert a + b == a;
    } else {
      var n := |b| - 1;
      ExecAppend(p, c, s, a, b[..n]);
      assert (a + b)[..|a| + n] == a + b[..n];
    }
  }

  lemma {:induction false} FinishedStays<S, A, O>(p: Params<S, A, O>, c: Cert, s: State<S, A, O>, sched: seq<nat>)
    requires WellFormed(p, c) && Inv(p, c, s) && ValidSchedule(p, sched) && AllFinished(s)
    ensures Exec(p, c, s, sched) == s
  {
    if sched != [] { FinishedStays(p, c, s, sched[..|sched| - 1]); }
  }

  /** After as many fair rounds as there was work, all threads have left, whatever the order inside a round. */
  lemma {:induction false} FairRuns<S, A, O>(p: Params<S, A, O>, c: Cert, s: State<S, A, O>, rounds: seq<seq<nat>>)
    requires WellFormed(p, c) && Inv(p, c, s) && forall i :: 0 <= i < |rounds| ==> Fair(p, rounds[i])
    ensures ValidSchedule(p, Flat(rounds))
    ensures
      var e := Exec(p, c, s, Flat(rounds));
      AllFinished(e) || Work(p, e) + |rounds| <= Work(p, s)
  {
    hide Inv; hide WellFormed; hide Work; hide AllFinished;
    if rounds != [] {
      var n := |rounds| - 1;
      FairRuns(p, c, s, rounds[..n]);
      var e := Exec(p, c, s, Flat(rounds[..n]));
      ExecAppend(p, c, s, Flat(rounds[..n]), rounds[n]);
      if AllFinished(e) {
        FinishedStays(p, c, e, rounds[n]);
      } else {
        RoundMoves(p, c, e, rounds[n]);
      }
    }
  }
}
