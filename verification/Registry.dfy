/**
 The server's registry of queues (QManager.cpp) and the handles that sessions hold on them.

 A number stands for a QStorage object's address; an address may be used again after its
 queue is deleted. The registry's use counts are shown to equal the number of handles, in
 every interleaving of opens, closes, disconnects, creations and deletions.
 */
module Registry {
  datatype QInfo = QInfo(storage: nat, owner: string)

  datatype Result = Ok | AlreadyDefined | InvalidName | QueueOpen | Missing

  datatype Option = None | Some(storage: nat)

  datatype Queues = Queues(queues: map<string, QInfo>, utilization: map<nat, int>, temps: set<string>)

  /** A count that was never touched reads as 0, as std::map's operator[] makes it. */
  function Use(r: Queues, p: nat): int {
    if p in r.utilization then r.utilization[p] else 0
  }

  function Live(r: Queues): set<nat> {
    set n | n in r.queues :: r.queues[n].storage
  }

  /** Separators, control characters and the space are not allowed in a name. */
  predicate BadChar(c: char) {
    c == '\\' || c == '/' || 1 <= c as int <= 32
  }

  /** A name that may be given to a queue. */
  predicate GoodName(name: string) {
    forall c :: c in name ==> c != '\\' && c != '/' && !(1 <= c as int <= 32)
  }

  lemma {:induction false} GoodNames(name: string)
    ensures GoodName(name) <==> !exists i :: 0 <= i < |name| && BadChar(name[i])
  {
    if c :| c in name && BadChar(c) {
      var i :| 0 <= i < |name| && name[i] == c;
    }
    forall i | 0 <= i < |name| && BadChar(name[i]) ensures !GoodName(name) {
      assert name[i] in name;
    }
  }

  // ---------- what the operations do ----------

  function Get(r: Queues, name: string): (Queues, Option) {
    if name !in r.queues then (r, None)
    else
      var p := r.queues[name].storage;
      (r.(utilization := r.utilization[p := Use(r, p) + 1]), Some(p))
  }

  function Create(r: Queues, name: string, user: string, temporary: bool, p: nat): (Queues, Result) {
    if name in r.queues then (r, AlreadyDefined)
    else if exists i :: 0 <= i < |name| && BadChar(name[i]) then (r, InvalidName)
    else (r.(queues := r.queues[name := QInfo(p, user)], temps := if temporary then r.temps + {name} else r.temps), Ok)
  }

  function Delete(r: Queues, name: string): (Queues, Result) {
    if name !in r.queues then (r, Missing)
    else if Use(r, r.queues[name].storage) <= 0 then (r.(queues := r.queues - {name}), Ok)
    else (r, QueueOpen)
  }

  /** One use less; a temporary queue goes with its last use. */
  function Release(r: Queues, p: nat): Queues {
    if p !in Live(r) then r
    else
      var n := Use(r, p) - 1;
      var gone := n == 0;
      Queues(
        map name | name in r.queues && !(r.queues[name].storage == p && gone && name in r.temps) :: r.queues[name],
        r.utilization[p := n],
        r.temps)
  }

  ghost predicate Distinct(r: Queues) {
    forall a, b :: a in r.queues && b in r.queues && r.queues[a].storage == r.queues[b].storage ==> a == b
  }

  // ---------- the object ----------

  class QManager {
    var queues: map<string, QInfo>
    var utilization: map<nat, int>
    var tempQueues: set<string>

    ghost function Abs(): Queues
      reads this
    {
      Queues(queues, utilization, tempQueues)
    }

    /** Finds the queue if there is one of that name, and counts one use more of it and of no other. */
    method GetQueue(name: string) returns (r: Option)
      modifies this`utilization
      ensures (Abs(), r) == Get(old(Abs()), name)
      ensures r == if name in queues then Some(queues[name].storage) else None
      ensures forall p :: Use(Abs(), p) == old(Use(Abs(), p)) + if r == Some(p) then 1 else 0
    {
      if name in queues {
        var p := queues[name].storage;
        utilization := utilization[p := (if p in utilization then utilization[p] else 0) + 1];
        return Some(p);
      }
      return None;
    }

    /** `p` is the address of the new object, so no live queue has it. */
    method CreateQueue(name: string, user: string, temporary: bool, p: nat) returns (r: Result)
      requires Distinct(Abs()) && p !in Live(Abs())
      modifies this`queues, this`tempQueues
      ensures Distinct(Abs()) && (Abs(), r) == Create(old(Abs()), name, user, temporary, p)
      ensures r == if name in old(queues) then AlreadyDefined
        else if !GoodName(name) then InvalidName
        else Ok
      ensures queues == if r == Ok then old(queues)[name := QInfo(p, user)] else old(queues)
      ensures tempQueues == if r == Ok && temporary then old(tempQueues) + {name} else old(tempQueues)
    {
      GoodNames(name);
      if name !in queues {
        if exists i :: 0 <= i < |name| && BadChar(name[i]) {
          return InvalidName;
        }
        queues := queues[name := QInfo(p, user)];
        if temporary {
          tempQueues := tempQueues + {name};
        }
        return Ok;
      }
      return AlreadyDefined;
    }

    method DeleteQueue(name: string) returns (r: Result)
      requires Distinct(Abs())
      modifies this`queues
      ensures Distinct(Abs()) && (Abs(), r) == Delete(old(Abs()), name)
      ensures r == if name !in old(queues) then Missing
        else if old(Use(Abs(), queues[name].storage)) > 0 then QueueOpen
        else Ok
      ensures queues == if r == Ok then old(queues) - {name} else old(queues)
    {
      if name in queues {
        var p := queues[name].storage;
        if (if p in utilization then utilization[p] else 0) <= 0 {
          queues := queues - {name};
          return Ok;
        }
        return QueueOpen;
      }
      return Missing;
    }

    /** The loop over all queues, which may erase the one it is at. */
    method ReleaseQueue(p: nat)
      requires Distinct(Abs())
      modifies this`queues, this`utilization
      ensures Distinct(Abs()) && Abs() == Release(old(Abs()), p)
    {
      ghost var before := Abs();
      var todo := queues.Keys;
      ghost var found := false;
      while todo != {}
        invariant todo <= queues.Keys && todo <= before.queues.Keys
        invariant !found ==>
          Abs() == before && forall n :: n in before.queues && n !in todo ==> before.queues[n].storage != p
        invariant found ==> p in Live(before) && Abs() == Release(before, p)
        invariant found ==> forall n :: n in todo ==> before.queues[n].storage != p
      {
        var name :| name in todo;
        todo := todo - {name};
        if queues[name].storage == p {
          found := true;
          ReleaseAt(name, p);
        }
      }
    }

    /** The loop's body, at the queue that is released. */
    method ReleaseAt(name: string, p: nat)
      requires Distinct(Abs()) && name in queues && queues[name].storage == p
      modifies this`queues, this`utilization
      ensures p in Live(old(Abs())) && Abs() == Release(old(Abs()), p) && old(queues).Keys - {name} <= queues.Keys
    {
      var util := (if p in utilization then utilization[p] else 0) - 1;
      utilization := utilization[p := util];
      if util == 0 && name in tempQueues {
        var r := DeleteQueue(name);
      }
    }
  }

  // ---------- all sessions together ----------

  /** A session's number and its queue handle. */
  type SessionHandle = (nat, nat)

  datatype World = World(registry: Queues, handles: map<SessionHandle, nat>)

  datatype Step =
    | Open(handle: SessionHandle, name: string)
    | Close(handle: SessionHandle)
    | CreateStep(name: string, user: string, temporary: bool, p: nat)
    | DeleteStep(name: string)

  ghost function Holders(handles: map<SessionHandle, nat>, p: nat): set<SessionHandle> {
    set h | h in handles && handles[h] == p
  }

  ghost predicate Enabled(w: World, st: Step) {
    match st
    case Open(h, name) => h !in w.handles
    case Close(h) => h in w.handles
    case CreateStep(_, _, _, p) => p !in Live(w.registry)
    case DeleteStep(_) => true
  }

  /** Opening a queue that does not exist gives no handle. */
  ghost function After(w: World, st: Step): World
    requires Enabled(w, st)
  {
    match st
    case Open(h, name) =>
      var (r, p) := Get(w.registry, name);
      World(r, if p.None? then w.handles else w.handles[h := p.storage])
    case Close(h) => World(Release(w.registry, w.handles[h]), w.handles - {h})
    case CreateStep(name, user, temporary, p) => w.(registry := Create(w.registry, name, user, temporary, p).0)
    case DeleteStep(name) => w.(registry := Delete(w.registry, name).0)
  }

  /** Every queue's use count is the number of handles on it, and every handle is on a queue that exists. */
  ghost predicate Inv(w: World) {
    && Distinct(w.registry)
    && (forall p :: Use(w.registry, p) == |Holders(w.handles, p)|)
    && (forall h :: h in w.handles ==> w.handles[h] in Live(w.registry))
  }

  lemma {:induction false} HoldersAdd(handles: map<SessionHandle, nat>, h: SessionHandle, q: nat, p: nat)
    requires h !in handles
    ensures |Holders(handles[h := q], p)| == |Holders(handles, p)| + if p == q then 1 else 0
  {
    assert Holders(handles[h := q], p) == Holders(handles, p) + if p == q then {h} else {};
  }

  lemma {:induction false} HoldersDrop(handles: map<SessionHandle, nat>, h: SessionHandle, p: nat)
    requires h in handles
    ensures |Holders(handles - {h}, p)| == |Holders(handles, p)| - if p == handles[h] then 1 else 0
  {
    assert Holders(handles - {h}, p) == Holders(handles, p) - {h};
  }

  lemma {:induction false} OpenInv(w: World, h: SessionHandle, name: string)
    requires Inv(w) && h !in w.handles
    ensures Inv(After(w, Open(h, name)))
  {
    if name in w.registry.queues {
      var q := w.registry.queues[name].storage;
      var w' := After(w, Open(h, name));
      forall p ensures Use(w'.registry, p) == |Holders(w'.handles, p)| {
        HoldersAdd(w.handles, h, q, p);
      }
      assert Live(w'.registry) == Live(w.registry);
    }
  }

  /** The last handle is gone: nobody else holds the queue that goes with it. */
  lemma {:induction false} CloseInv(w: World, h: SessionHandle)
    requires Inv(w) && h in w.handles
    ensures Inv(After(w, Close(h)))
  {
    var q, w' := w.handles[h], After(w, Close(h));
    forall p ensures Use(w'.registry, p) == |Holders(w'.handles, p)| {
      HoldersDrop(w.handles, h, p);
    }
    forall g | g in w'.handles ensures w'.handles[g] in Live(w'.registry) {
      var name :| name in w.registry.queues && w.registry.queues[name].storage == w.handles[g];
      if w.handles[g] == q {
        assert g in Holders(w'.handles, q);
      }
      assert name in w'.registry.queues;
    }
  }

  lemma {:induction false} CreateInv(w: World, name: string, user: string, temporary: bool, p: nat)
    requires Inv(w) && p !in Live(w.registry)
    ensures Inv(After(w, CreateStep(name, user, temporary, p)))
  {
    var w' := After(w, CreateStep(name, user, temporary, p));
    forall h | h in w'.handles ensures w'.handles[h] in Live(w'.registry) {
      var n :| n in w.registry.queues && w.registry.queues[n].storage == w.handles[h];
      assert n in w'.registry.queues && w'.registry.queues[n] == w.registry.queues[n];
    }
  }

  lemma {:induction false} DeleteInv(w: World, name: string)
    requires Inv(w)
    ensures Inv(After(w, DeleteStep(name)))
  {
    var w' := After(w, DeleteStep(name));
    forall h | h in w'.handles ensures w'.handles[h] in Live(w'.registry) {
      var n :| n in w.registry.queues && w.registry.queues[n].storage == w.handles[h];
      assert h in Holders(w.handles, w.handles[h]);
      assert n in w'.registry.queues;
    }
  }

  lemma {:induction false} StepInv(w: World, st: Step)
    requires Inv(w) && Enabled(w, st)
    ensures Inv(After(w, st))
  {
    match st
    case Open(h, name) => OpenInv(w, h, name);
    case Close(h) => CloseInv(w, h);
    case CreateStep(name, user, temporary, p) => CreateInv(w, name, user, temporary, p);
    case DeleteStep(name) => DeleteInv(w, name);
  }

  ghost predicate Steps(w: World, st: Step, w': World) {
    Enabled(w, st) && w' == After(w, st)
  }

  ghost predicate Run(ws: seq<World>, sts: seq<Step>) {
    |ws| == |sts| + 1 && forall i, j :: 0 <= i < |sts| && j == i + 1 ==> Steps(ws[i], sts[i], ws[j])
  }

  /** In every run from a server just started, every use count is the number of handles. */
  lemma {:induction false} RunInv(ws: seq<World>, sts: seq<Step>)
    requires Run(ws, sts) && Distinct(ws[0].registry) && ws[0].handles == map[] && ws[0].registry.utilization == map[]
    ensures forall i :: 0 <= i < |ws| ==> Inv(ws[i])
    decreases |sts|
  {
    var n := |sts|;
    if n == 0 {
      assert forall p :: Holders(ws[0].handles, p) == {};
    } else {
      assert Steps(ws[n - 1], sts[n - 1], ws[n]);
      RunInv(ws[..n], sts[..n - 1]);
      assert ws[..n][n - 1] == ws[n - 1];
      StepInv(ws[n - 1], sts[n - 1]);
      assert forall i :: 0 <= i < n ==> ws[i] == ws[..n][i];
    }
  }

  // ---------- what follows ----------

  /** A queue is deleted on request if and only if it exists and no session has it open. */
  lemma {:induction false} DeleteExact(w: World, name: string)
    requires Inv(w)
    ensures Delete(w.registry, name).1 == Ok <==>
      name in w.registry.queues && forall h :: h in w.handles ==> w.handles[h] != w.registry.queues[name].storage
  {
    if name in w.registry.queues {
      var p := w.registry.queues[name].storage;
      if h :| h in w.handles && w.handles[h] == p {
        assert h in Holders(w.handles, p);
      } else {
        assert Holders(w.handles, p) == {};
      }
    }
  }

  /**
   Closing a handle removes the queue if and only if it was the last handle and the name was
   once made for a temporary queue; no other queue goes.
   */
  lemma {:induction false} CloseExact(w: World, h: SessionHandle, name: string)
    requires Inv(w) && h in w.handles && name in w.registry.queues
    ensures name !in After(w, Close(h)).registry.queues <==>
      && w.registry.queues[name].storage == w.handles[h] && Holders(w.handles, w.handles[h]) == {h}
      && name in w.registry.temps
  {
    var q := w.handles[h];
    assert h in Holders(w.handles, q);
    if Use(w.registry, q) == 1 {
      OnlyOne(Holders(w.handles, q), h);
    }
  }

  lemma {:induction false} OnlyOne(s: set<SessionHandle>, h: SessionHandle)
    requires |s| == 1 && h in s
    ensures s == {h}
  {
    assert |s - {h}| == 0;
    assert s == (s - {h}) + {h};
  }

  // ---------- temporary queues ----------

  /** The step makes a temporary queue of that name. */
  ghost predicate MakesTemporary(w: World, st: Step, name: string) {
    st.CreateStep? && st.name == name && st.temporary && name !in w.registry.queues && GoodName(name)
  }

  /** A step marks exactly the name of a temporary queue that it makes, and unmarks none. */
  lemma {:induction false} StepTemps(w: World, st: Step, name: string)
    requires Enabled(w, st)
    ensures name in After(w, st).registry.temps <==> name in w.registry.temps || MakesTemporary(w, st, name)
  {
    if st.CreateStep? {
      GoodNames(st.name);
    }
  }

  /** In every run from a server just started, a name is marked if and only if a temporary queue was made of it. */
  lemma {:induction false} TempsExact(ws: seq<World>, sts: seq<Step>, name: string)
    requires Run(ws, sts) && ws[0].registry.temps == {}
    ensures name in ws[|sts|].registry.temps <==>
      exists i :: 0 <= i < |sts| && MakesTemporary(ws[i], sts[i], name)
    decreases |sts|
  {
    var n := |sts|;
    if n > 0 {
      assert Steps(ws[n - 1], sts[n - 1], ws[n]);
      assert ws[..n][0] == ws[0] && ws[..n][n - 1] == ws[n - 1];
      TempsExact(ws[..n], sts[..n - 1], name);
      StepTemps(ws[n - 1], sts[n - 1], name);
      assert forall i :: 0 <= i < n - 1 ==> ws[..n][i] == ws[i] && sts[..n - 1][i] == sts[i];
    }
  }

  /** A step takes a queue away only by deleting it, or by closing the last handle of a marked name. */
  lemma {:induction false} StepKeepsQueue(w: World, st: Step, name: string)
    requires Inv(w) && Enabled(w, st) && name in w.registry.queues
    requires name !in w.registry.temps && st != DeleteStep(name)
    ensures name in After(w, st).registry.queues && After(w, st).registry.queues[name] == w.registry.queues[name]
  {
  }

  /** A queue outlives every close, of any session, if no temporary queue was ever made of its name. */
  lemma {:induction false} PermanentStays(ws: seq<World>, sts: seq<Step>, name: string, i: nat)
    requires Run(ws, sts) && Distinct(ws[0].registry) && ws[0].handles == map[]
    requires ws[0].registry.utilization == map[] && ws[0].registry.temps == {}
    requires i <= |sts| && name in ws[i].registry.queues
    requires forall l :: 0 <= l < |sts| ==> !MakesTemporary(ws[l], sts[l], name)
    requires forall l :: i <= l < |sts| ==> sts[l] != DeleteStep(name)
    ensures name in ws[|sts|].registry.queues && ws[|sts|].registry.queues[name] == ws[i].registry.queues[name]
    decreases |sts|
  {
    var n := |sts|;
    if i < n {
      RunInv(ws, sts);
      assert Steps(ws[n - 1], sts[n - 1], ws[n]);
      assert forall l :: 0 <= l < n ==> ws[..n][l] == ws[l];
      assert forall l :: 0 <= l < n - 1 ==> sts[..n - 1][l] == sts[l];
      PermanentStays(ws[..n], sts[..n - 1], name, i);
      TempsExact(ws[..n], sts[..n - 1], name);
      StepKeepsQueue(ws[n - 1], sts[n - 1], name);
    }
  }

  /**
   A name stays marked as temporary after its queue is gone, so a permanent queue that is
   created under it later is deleted when its last handle is closed.
   */
  lemma {:induction false} PermanentLost(name: string, user: string, p: nat, q: nat, h: SessionHandle)
    requires forall i :: 0 <= i < |name| ==> !BadChar(name[i])
    ensures var w0 := World(Queues(map[], map[], {}), map[]);
      var w1 := After(w0, CreateStep(name, user, true, p));
      var w2 := After(w1, Open(h, name));
      var w3 := After(w2, Close(h));
      && name !in w3.registry.queues && Enabled(w3, CreateStep(name, user, false, q))
      && var w4 := After(w3, CreateStep(name, user, false, q));
         var w5 := After(w4, Open(h, name));
         name in w5.registry.queues && name !in After(w5, Close(h)).registry.queues
  {
    var w0 := World(Queues(map[], map[], {}), map[]);
    var w1 := After(w0, CreateStep(name, user, true, p));
    assert w1.registry.queues == map[name := QInfo(p, user)] && w1.registry.temps == {name};
    var w2 := After(w1, Open(h, name));
    assert w2.handles == map[h := p] && Use(w2.registry, p) == 1 && p in Live(w2.registry);
    var w3 := After(w2, Close(h));
    assert w3.registry.queues == map[] && w3.handles == map[] && Use(w3.registry, p) == 0;
    var w4 := After(w3, CreateStep(name, user, false, q));
    assert w4.registry.queues == map[name := QInfo(q, user)] && Use(w4.registry, q) == 0;
    var w5 := After(w4, Open(h, name));
    assert w5.handles == map[h := q] && Use(w5.registry, q) == 1 && q in Live(w5.registry);
  }
}
