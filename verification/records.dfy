/** kernel/mm/slab.c: the private objects of a process, each recorded in a tree under its address. */
module Records {
  import opened Wrappers
  import opened Sequences
  import opened RBShape
  import opened RBTrees
  import BuddyForest
  import BuddySpec
  import opened Buddies
  import opened BuddyLaws
  import opened SlabSpec
  import opened Slabs

  const REC_SIZE: nat := 48 // sizeof(mm_SlabRecord)
  const REC: ClassId := 1 // the class that it comes from

  lemma RecClass()
    ensures REC_SIZE <= MX_SIZE == Size(15) && ClassFrom(0, REC_SIZE) == REC
  {
    SizeTable();
  }

  /** mm_SlabRecord: addr is the address of the structure itself, and size the class of the object. */
  datatype Record = Record(addr: nat, ptr: nat, size: ClassId)

  /** The recorded objects. */
  ghost function Ptrs(m: map<RBNode, Record>, ns: set<RBNode>): set<(nat, nat)>
    requires ns <= m.Keys
  {
    set n | n in ns :: (m[n].ptr, m[n].size)
  }

  /** The objects that the records themselves take. */
  ghost function Recs(m: map<RBNode, Record>, ns: set<RBNode>): set<(nat, nat)>
    requires ns <= m.Keys
  {
    set n | n in ns :: (m[n].addr, REC)
  }

  /** Every record stands for an object that is held, and lies in another one; no object is recorded
      twice, and none of them is itself a record. */
  ghost predicate Recorded(m: map<RBNode, Record>, ns: set<RBNode>, objs: set<(nat, nat)>) {
    && ns <= m.Keys
    && (forall n | n in ns :: (m[n].ptr, m[n].size) in objs && (m[n].addr, REC) in objs)
    && (forall n, k | n in ns && k in ns && n != k :: m[n].ptr != m[k].ptr && m[n].addr != m[k].addr)
    && (forall n, k | n in ns && k in ns :: m[n].ptr != m[k].addr)
  }

  /** At one address there is one object. */
  ghost predicate OneEach(objs: set<(nat, nat)>) {
    forall u, v | u in objs && v in objs && u.0 == v.0 :: u == v
  }

  lemma ObjectsOnce(s: SlabAlloc)
    requires s.Valid()
    ensures s.slab.Length == CLASSES && Classes(All(s.slab[..])) && OneEach(s.Objects())
  {
    hide Inv, All, Live, Hdrs;
    var all, used := All(s.slab[..]), s.buddy.Allocated();
    InvClasses(all, used, s.boot);
    forall u, v | u in s.Objects() && v in s.Objects() && u.0 == v.0 ensures u == v {
      if u != v { LiveClear(all, used, s.boot, u, v); }
    }
  }

  lemma RecordMore(m: map<RBNode, Record>, ns: set<RBNode>, objs: set<(nat, nat)>, node: RBNode, r: Record)
    requires Recorded(m, ns, objs) && node !in ns && (r.ptr, r.size) !in objs
    requires (r.addr, REC) !in objs + {(r.ptr, r.size)} && OneEach(objs + {(r.ptr, r.size)} + {(r.addr, REC)})
    ensures var (m', ns') := (m[node := r], ns + {node});
            && Recorded(m', ns', objs + {(r.ptr, r.size)} + {(r.addr, REC)})
            && Ptrs(m', ns') == Ptrs(m, ns) + {(r.ptr, r.size)} && Recs(m', ns') == Recs(m, ns) + {(r.addr, REC)}
  {
    var m', objs' := m[node := r], objs + {(r.ptr, r.size)} + {(r.addr, REC)};
    assert (r.ptr, r.size) in objs' && (r.addr, REC) in objs';
    forall n | n in ns ensures m'[n] == m[n] && m[n].ptr !in {r.ptr, r.addr} && m[n].addr !in {r.ptr, r.addr} {
      assert (m[n].ptr, m[n].size) in objs' && (m[n].addr, REC) in objs';
    }
  }

  lemma RecordLess(m: map<RBNode, Record>, ns: set<RBNode>, objs: set<(nat, nat)>, node: RBNode)
    requires Recorded(m, ns, objs) && node in ns
    ensures var (ns', p, a) := (ns - {node}, (m[node].ptr, m[node].size), (m[node].addr, REC));
            && p != a && p in objs && a in objs && Recorded(m, ns', objs - {p} - {a})
            && Ptrs(m, ns') == Ptrs(m, ns) - {p} && Recs(m, ns') == Recs(m, ns) - {a}
            && p in Ptrs(m, ns) && a in Recs(m, ns)
  {
  }

  lemma AddressLess(m: map<RBNode, Record>, ns: set<RBNode>, objs: set<(nat, nat)>, node: RBNode)
    requires Recorded(m, ns, objs) && node in ns
    ensures (set n | n in ns - {node} :: m[n].ptr) == (set n | n in ns :: m[n].ptr) - {m[node].ptr}
  {
  }

  lemma RecordsHeld(m: map<RBNode, Record>, ns: set<RBNode>, objs: set<(nat, nat)>)
    requires Recorded(m, ns, objs)
    ensures ns <= m.Keys && Ptrs(m, ns) + Recs(m, ns) <= objs
  {
  }

  /** Whatever happens to objects outside leaves a process's records right. */
  lemma OthersRecords(m: map<RBNode, Record>, ns: set<RBNode>, objs: set<(nat, nat)>, objs': set<(nat, nat)>)
    requires Recorded(m, ns, objs) && Ptrs(m, ns) + Recs(m, ns) <= objs'
    ensures Recorded(m, ns, objs')
  {
    forall n | n in ns ensures (m[n].ptr, m[n].size) in objs' && (m[n].addr, REC) in objs' {
      assert (m[n].ptr, m[n].size) in Ptrs(m, ns) && (m[n].addr, REC) in Recs(m, ns);
    }
  }

  lemma NonePassed(k: Key)
    ensures NotAbove(Before(Top), k) && Above(After(Top), k)
  {
  }

  lemma LessApart(a: nat, b: nat)
    requires a < b
    ensures Less(Key(a, 0), Key(b, 0)) && !Less(Key(b - 1, 0), Key(a, 0))
  {
  }

  /** What the slab allocator owns, and the state of the pages below it. */
  datatype Ground = Ground(own: set<nat>, used: set<(nat, nat)>, d: seq<BuddySpec.Page>, roots: seq<BuddyForest.Root>,
                           clean: bool)

  /** Other clients of the page allocator keep their blocks, and no page gets a mark that it must not
      have. */
  ghost predicate Steady(g: Ground, g': Ground) {
    && OthersKept(g.own, g.used, g.d, g'.own, g'.used, g'.d) && NoNewTables(g.d, g'.d)
    && g'.roots == g.roots && (g.clean ==> g'.clean)
  }

  lemma SteadyHere(g: Ground)
    ensures Steady(g, g)
  {
  }

  lemma SteadyOn(g: Ground, g': Ground, g2: Ground)
    requires Steady(g, g') && Steady(g', g2)
    ensures Steady(g, g2)
  {
  }

  ghost function Members(s: seq<nat>): set<nat> { set x | x in s }

  lemma NothingKept(m: map<RBNode, Record>)
    ensures NoDup<nat>([]) && Ptrs(m, {}) == {} && Recs(m, {}) == {}
  {
  }

  lemma OnceMore(s: seq<nat>, x: nat)
    ensures Members(s + [x]) == Members(s) + {x} && (NoDup(s) && x !in Members(s) ==> NoDup(s + [x]))
  {
  }

  lemma LessLeft(objs: set<(nat, nat)>, priv: set<(nat, nat)>, kept: set<(nat, nat)>, p: set<(nat, nat)>,
                 k: set<(nat, nat)>, x: (nat, nat), y: (nat, nat))
    requires x in p && p <= priv && y in k && k <= kept
    ensures objs - (priv - p) - (kept - k) - {x} - {y} == objs - (priv - (p - {x})) - (kept - (k - {y}))
  {
  }

  lemma OwnAddress(u: (nat, nat))
    requires u.1 < CLASSES
    ensures InObject(u, u.0)
  {
  }

  /** Once an object of this size is taken, class 1 is full, and no page group is left for a further block
      of it: the object took the last free slot, or the last groups. */
  ghost predicate NoRecord(s: SlabAlloc, size: nat)
    requires s.slab.Length == CLASSES
    reads s, s.slab, s.buddy
  {
    size <= MX_SIZE && size <= Size(15) &&
    var id := ClassFrom(0, size);
    && (if id == REC then FreeAfter(id, s.slab[..]) else s.slab[REC].freeCnt) == 0
    && Room(s.buddy.freeLst, BLK_ORD) == Cost(id, s.slab[..])
  }

  /** A shared record is refused exactly if class 1 is full and no group is left. */
  lemma RecordRefused(s: SlabAlloc)
    requires s.slab.Length == CLASSES
    ensures s.Refuses(REC_SIZE) <==> s.slab[REC].freeCnt == 0 && Room(s.buddy.freeLst, BLK_ORD) == 0
  {
    hide Size, ClassFrom;
    RecClass();
  }

  class TaskMem {
    const slabs: SlabAlloc
    const slabRecord: RBTree
    var rec: map<RBNode, Record> // the record a tree node is embedded in

    ghost predicate Ordered()
      reads this`rec, slabRecord, slabRecord.nodes`key, slabRecord.nodes`left, slabRecord.nodes`right,
            slabRecord.nodes`par, slabRecord.nodes`black
    {
      && slabRecord.Valid() && (forall n | n in slabRecord.Seq() :: n in slabRecord.nodes)
      && Sorted(slabRecord.Seq())
      && forall n | n in slabRecord.nodes :: n in rec && n.key == Key(rec[n].ptr, 0)
    }

    ghost predicate Valid()
      reads this, slabs, slabs.slab, slabs.buddy, slabs.buddy.pages, slabRecord, slabRecord.nodes`key,
            slabRecord.nodes`left, slabRecord.nodes`right, slabRecord.nodes`par, slabRecord.nodes`black
    {
      slabs.Valid() && Ordered() && Recorded(rec, slabRecord.nodes, slabs.Objects())
    }

    /** The private objects of the process. */
    ghost function Private(): set<(nat, nat)>
      requires slabRecord.nodes <= rec.Keys
      reads this`rec, slabRecord`nodes
    {
      Ptrs(rec, slabRecord.nodes)
    }

    /** Their addresses. */
    ghost function Addresses(): set<nat>
      requires slabRecord.nodes <= rec.Keys
      reads this`rec, slabRecord`nodes
    {
      set n | n in slabRecord.nodes :: rec[n].ptr
    }

    /** Their records. */
    ghost function Kept(): set<(nat, nat)>
      requires slabRecord.nodes <= rec.Keys
      reads this`rec, slabRecord`nodes
    {
      Recs(rec, slabRecord.nodes)
    }

    constructor (s: SlabAlloc)
      requires s.Valid()
      ensures Valid() && slabs == s && Private() == {} && Kept() == {} && fresh(slabRecord)
    {
      slabs := s;
      slabRecord := new RBTree();
      rec := map[];
    }

    lemma OrderedIs()
      requires slabRecord.Valid() && Sorted(slabRecord.Seq())
      requires forall n | n in slabRecord.nodes :: n in rec && n.key == Key(rec[n].ptr, 0)
      ensures Ordered()
    {
      forall n | n in slabRecord.Seq() ensures n in slabRecord.nodes { NodesInOrder(slabRecord.shape, n); }
    }

    lemma {:induction false} KeyAt(ctx: Ctx, t: Shape)
      requires Ordered() && t.T? && Plug(ctx, t) == slabRecord.shape
      ensures t.x in slabRecord.nodes && t.x in rec && t.x.key == Key(rec[t.x].ptr, 0)
    {
      InOrderPlug(ctx, t);
      NodesInOrder(slabRecord.shape, t.x);
    }

    /** The walk of _delRecord. */
    method FindRecord(addr: nat) returns (node: RBNode?)
      requires Ordered()
      ensures node == null <==> forall n | n in slabRecord.nodes :: rec[n].ptr != addr
      ensures node != null ==> node in slabRecord.nodes && rec[node].ptr == addr
    {
      hide Nodes, CtxNodes, RedBlack, Sorted, NotAbove, Above, Less;
      node := slabRecord.root;
      ghost var ctx, t := Top, slabRecord.shape;
      slabRecord.Look(ctx, t);
      NonePassed(Key(addr - 1, 0));
      NonePassed(Key(addr, 0));
      while node != null
        invariant slabRecord.Focus(ctx, t) && node == RootOf(t) && Plug(ctx, t) == slabRecord.shape
        invariant NotAbove(Before(ctx), Key(addr - 1, 0)) && Above(After(ctx), Key(addr, 0))
        decreases t
      {
        slabRecord.Look(ctx, t);
        KeyAt(ctx, t);
        if rec[node].ptr == addr {
          return;
        } else if rec[node].ptr < addr {
          LessApart(rec[node].ptr, addr);
          StepRight(ctx, t, Key(addr - 1, 0));
          ctx, t := Hole(R, ctx, t.x, t.black, t.l), t.r;
          node := node.right;
        } else {
          LessApart(addr, rec[node].ptr);
          StepLeft(ctx, t, Key(addr, 0));
          ctx, t := Hole(L, ctx, t.x, t.black, t.r), t.l;
          node := node.left;
        }
        slabRecord.Up(ctx, t);
      }
      Passed(ctx, addr);
    }

    /** The walk ends in front of all greater addresses and behind all smaller ones. */
    lemma {:induction false} Passed(ctx: Ctx, addr: nat)
      requires Ordered() && Plug(ctx, E) == slabRecord.shape
      requires NotAbove(Before(ctx), Key(addr - 1, 0)) && Above(After(ctx), Key(addr, 0))
      ensures forall n | n in slabRecord.nodes :: rec[n].ptr != addr
    {
      hide RedBlack, Sorted;
      InOrderPlug(ctx, E);
      forall n | n in slabRecord.nodes ensures rec[n].ptr != addr {
        NodesInOrder(slabRecord.shape, n);
        assert n in Before(ctx) || n in After(ctx);
      }
    }

    /** The tree's part of _addRecord. */
    method Enter(r: Record) returns (node: RBNode)
      requires Ordered()
      modifies this`rec, slabRecord, slabRecord.nodes`left, slabRecord.nodes`right, slabRecord.nodes`par,
               slabRecord.nodes`black
      ensures Ordered() && node !in old(slabRecord.nodes) && slabRecord.nodes == old(slabRecord.nodes) + {node}
      ensures rec == old(rec)[node := r]
    {
      hide Sorted, InsertedAt, RBTree.Linked;
      node := new RBNode(Key(r.ptr, 0));
      rec := rec[node := r];
      ghost var pos := slabRecord.Ins(node);
      OrderedIs();
    }

    /** RBTree_delLck on a record. */
    method Leave(node: RBNode)
      requires Ordered() && node in slabRecord.nodes
      modifies slabRecord, slabRecord.nodes`left, slabRecord.nodes`right, slabRecord.nodes`par, slabRecord.nodes`black
      ensures Ordered() && slabRecord.nodes == old(slabRecord.nodes) - {node}
    {
      hide RBTree.Linked;
      ghost var s := slabRecord.Seq();
      ghost var pos := slabRecord.Del(node);
      RemovedSorted(pos, node, s, slabRecord.Seq());
      OrderedIs();
    }

    ghost function State(): Ground
      requires slabs.Valid()
      reads slabs, slabs.slab, slabs.buddy, slabs.buddy.pages
    {
      Ground(slabs.Owned(), slabs.buddy.Allocated(), slabs.buddy.pages[..], slabs.buddy.roots, slabs.buddy.Clean())
    }

    /** mm_kmalloc of a shared object. */
    method AllocShared(size: nat) returns (r: Option<nat>)
      requires slabs.Valid()
      modifies slabs.slab, slabs.buddy, slabs.buddy.pages
      ensures slabs.Valid() && (r == None <==> old(slabs.Refuses(size))) && Steady(old(State()), State())
      ensures r == None ==> slabs.Objects() == old(slabs.Objects())
      ensures r.Some? ==>
                size <= MX_SIZE == Size(15) &&
                var id := ClassFrom(0, size);
                && size <= Size(id) && (id > 0 ==> Size(id - 1) < size)
                && (r.value, id) !in old(slabs.Objects()) && slabs.Objects() == old(slabs.Objects()) + {(r.value, id)}
                && (slabs.Refuses(REC_SIZE) <==> old(NoRecord(slabs, size)))
    {
      hide Size, ClassFrom, Room, OthersKept, NoNewTables, Buddy.Clean, SlabAlloc.Valid, SlabAlloc.Objects,
           SlabAlloc.Owned,
           SlabAlloc.Refuses;
      SizeTable();
      ObjectsOnce(slabs);
      r := slabs.MmKmalloc(size);
      ObjectsOnce(slabs);
      RecordRefused(slabs);
    }

    /** mm_kfree of a shared object.  It tells of a failure if no block covers the address, and if the block
        of the object was given back and had its header from boot. */
    method FreeShared(addr: nat, ghost u: (nat, nat)) returns (ok: bool, ghost gone: Option<Blk>)
      requires slabs.Valid() && InObject(u, addr) && (u in slabs.Objects() || slabs.Uncovered(addr))
      modifies slabs.slab, slabs.buddy, slabs.buddy.pages
      ensures slabs.Valid() && slabs.Objects() == old(slabs.Objects()) - {u} && Steady(old(State()), State())
      ensures u !in old(slabs.Objects()) ==> !ok
      ensures u in old(slabs.Objects()) ==>
                (ok <==> gone == None || u.1 < 5 || ObjHdr(u.1, gone.value, slabs.boot)) &&
                    slabs.boot == old(slabs.boot)
    {
      hide Size, OthersKept, NoNewTables, Buddy.Clean, SlabAlloc.Valid, SlabAlloc.Objects, SlabAlloc.Owned,
           SlabAlloc.Uncovered, InObject, ObjHdr;
      ObjectsOnce(slabs);
      ok, gone := slabs.Kfree(addr, u);
      ObjectsOnce(slabs);
    }

    /** _addRecord: `a` is where the record lies. */
    method AddRecord(ptr: nat, size: ClassId) returns (ok: bool, a: nat)
      requires slabs.Valid() && Ordered() && (ptr, size) in slabs.Objects()
      requires Recorded(rec, slabRecord.nodes, slabs.Objects() - {(ptr, size)})
      modifies this`rec, slabs.slab, slabs.buddy, slabs.buddy.pages, slabRecord, slabRecord.nodes`left,
               slabRecord.nodes`right, slabRecord.nodes`par, slabRecord.nodes`black
      ensures slabs.Valid() && Ordered() && (ok <==> !old(slabs.Refuses(REC_SIZE)))
      ensures !ok ==> rec == old(rec) && slabRecord.nodes == old(slabRecord.nodes)
      ensures !ok ==> slabs.Objects() == old(slabs.Objects())
      ensures ok ==> Recorded(rec, slabRecord.nodes, slabs.Objects())
      ensures ok ==> (a, REC) !in old(slabs.Objects()) && slabs.Objects() == old(slabs.Objects()) + {(a, REC)}
      ensures ok ==> Private() == old(Private()) + {(ptr, size)} && Kept() == old(Kept()) + {(a, REC)}
      ensures Steady(old(State()), State())
    {
      hide Size, ClassFrom, Recorded, OneEach, Steady, Ptrs, Recs, RBTree.Valid, Sorted, SlabAlloc.Valid,
           SlabAlloc.Objects, SlabAlloc.Owned, SlabAlloc.Refuses, NoRecord, TaskMem.State;
      ObjectsOnce(slabs);
      ghost var was, m, ns := slabs.Objects(), rec, slabRecord.nodes;
      ghost var objs := was - {(ptr, size)};
      assert was == objs + {(ptr, size)};
      a := 0;
      RecClass();
      var record := AllocShared(REC_SIZE);
      ObjectsOnce(slabs);
      if record == None {
        return false, a;
      }
      a := record.value;
      var node := Enter(Record(a, ptr, size));
      RecordMore(m, ns, objs, node, rec[node]);
      ok := true;
    }

    /** mm_kmalloc: id is the class of the object, and a the record of a private one. */
    method MmKmalloc(size: nat, shared: bool) returns (r: Option<nat>, id: ClassId, a: nat)
      requires Valid()
      modifies this`rec, slabs.slab, slabs.buddy, slabs.buddy.pages, slabRecord, slabRecord.nodes`left,
               slabRecord.nodes`right, slabRecord.nodes`par, slabRecord.nodes`black
      ensures Valid() && Steady(old(State()), State())
      ensures shared ==> (r == None <==> old(slabs.Refuses(size)))
      ensures !shared ==> (r == None <==> old(slabs.Refuses(size)) || old(NoRecord(slabs, size)))
      ensures shared || r == None ==> rec == old(rec) && slabRecord.nodes == old(slabRecord.nodes)
      ensures r == None ==> slabs.Objects() == old(slabs.Objects())
      ensures r.Some? ==>
                && size <= Size(id) && (id > 0 ==> Size(id - 1) < size) && (r.value, id) !in old(slabs.Objects())
                && slabs.Objects() == old(slabs.Objects()) + {(r.value, id)} + if shared then {} else {(a, REC)}
      ensures r.Some? && !shared ==>
                && (a, REC) !in old(slabs.Objects()) + {(r.value, id)}
                && Private() == old(Private()) + {(r.value, id)} && Kept() == old(Kept()) + {(a, REC)}
    {
      hide Size, ClassFrom, OneEach, Recorded, Steady, Ptrs, Recs, TaskMem.Ordered, SlabAlloc.Valid, SlabAlloc.Objects,
           SlabAlloc.Owned, SlabAlloc.Refuses, NoRecord, TaskMem.State;
      ObjectsOnce(slabs);
      ghost var was, g := slabs.Objects(), State();
      id, a := 0, 0;
      r := AllocShared(size);
      if r == None {
        return;
      }
      ObjectsOnce(slabs);
      ghost var g1 := State();
      id := slabs.PickClass(size);
      RecordsHeld(rec, slabRecord.nodes, was);
      OthersRecords(rec, slabRecord.nodes, was, slabs.Objects());
      assert slabs.Objects() - {(r.value, id)} == was;
      if !shared {
        var ok;
        ok, a := AddRecord(r.value, id);
        SteadyOn(g, g1, State());
        if !ok {
          ObjectsOnce(slabs);
          g1 := State();
          OwnAddress((r.value, id));
          ghost var gone;
          ok, gone := FreeShared(r.value, (r.value, id));
          ObjectsOnce(slabs);
          SteadyOn(g, g1, State());
          r := None;
        }
      }
    }

    /** The end of _delRecord: the record at this node leaves the tree and is freed. */
    method FreeRecord(node: RBNode) returns (ok: bool)
      requires Valid() && node in slabRecord.nodes
      modifies slabs.slab, slabs.buddy, slabs.buddy.pages, slabRecord, slabRecord.nodes`left, slabRecord.nodes`right,
               slabRecord.nodes`par, slabRecord.nodes`black
      ensures ok && slabs.Valid() && Ordered() && rec == old(rec) && node in rec && Steady(old(State()), State())
      ensures slabRecord.nodes == old(slabRecord.nodes) - {node}
      ensures slabs.Objects() == old(slabs.Objects()) - {(rec[node].addr, REC)}
      ensures (rec[node].ptr, rec[node].size) in slabs.Objects()
      ensures Recorded(rec, slabRecord.nodes, slabs.Objects() - {(rec[node].ptr, rec[node].size)})
      ensures Private() == old(Private()) - {(rec[node].ptr, rec[node].size)}
      ensures (rec[node].ptr, rec[node].size) in old(Private())
      ensures Kept() == old(Kept()) - {(rec[node].addr, REC)} && (rec[node].addr, REC) in old(Kept())
      ensures Addresses() == old(Addresses()) - {rec[node].ptr}
    {
      hide Size, Recorded, Steady, Ptrs, Recs, RBTree.Valid, Sorted, SlabAlloc.Valid, SlabAlloc.Objects,
           SlabAlloc.Owned, TaskMem.State;
      ObjectsOnce(slabs);
      ghost var objs, ns := slabs.Objects(), slabRecord.nodes;
      RecordLess(rec, ns, objs, node);
      AddressLess(rec, ns, objs, node);
      Leave(node);
      var a := rec[node].addr;
      OwnAddress((a, REC));
      ghost var gone;
      ok, gone := FreeShared(a, (a, REC));
      ObjectsOnce(slabs);
      ghost var p := (rec[node].ptr, rec[node].size);
      assert objs - {p} - {(a, REC)} == slabs.Objects() - {p};
    }

    /** mm_kfree.  A private address is refused exactly if it is not recorded; otherwise object and
        record go.  A shared one is handled as _kfree does. */
    method MmKfree(addr: nat, shared: bool, ghost u: (nat, nat))
      returns (ok: bool, ghost a: nat, ghost gone: Option<Blk>)
      requires Valid()
      requires shared ==> InObject(u, addr) && u !in Private() + Kept()
      requires shared ==> u in slabs.Objects() || slabs.Uncovered(addr)
      modifies slabs.slab, slabs.buddy, slabs.buddy.pages, slabRecord, slabRecord.nodes`left, slabRecord.nodes`right,
               slabRecord.nodes`par, slabRecord.nodes`black
      ensures Valid() && rec == old(rec) && Steady(old(State()), State())
      ensures shared ==> slabRecord.nodes == old(slabRecord.nodes) && slabs.Objects() == old(slabs.Objects()) - {u}
      ensures shared ==>
                (ok <==> u in old(slabs.Objects()) && (gone == None || u.1 < 5 || ObjHdr(u.1, gone.value, slabs.boot)))
      ensures !shared ==> Addresses() == old(Addresses()) - {addr}
      ensures !shared && addr !in old(Addresses()) ==>
                !ok && slabRecord.nodes == old(slabRecord.nodes) && slabs.Objects() == old(slabs.Objects())
      ensures !shared && addr in old(Addresses()) ==>
                (a, REC) in old(Kept()) && exists size | (addr, size) in old(Private()) ::
                  && slabs.Objects() == old(slabs.Objects()) - {(a, REC)} - {(addr, size)}
                  && Private() == old(Private()) - {(addr, size)} && Kept() == old(Kept()) - {(a, REC)}
                  && size < CLASSES && (ok <==> gone == None || size < 5 || ObjHdr(size, gone.value, slabs.boot))
    {
      hide Size, Recorded, Steady, Ptrs, Recs, TaskMem.Ordered, SlabAlloc.Valid, SlabAlloc.Objects, SlabAlloc.Owned,
           SlabAlloc.Uncovered, InObject, TaskMem.State, ObjHdr;
      a, gone := 0, None;
      ObjectsOnce(slabs);
      ghost var g, objs := State(), slabs.Objects();
      RecordsHeld(rec, slabRecord.nodes, objs);
      if !shared {
        var node := FindRecord(addr);
        if node == null {
          SteadyHere(g);
          return false, a, None;
        }
        a := rec[node].addr;
        ok := FreeRecord(node);
        ghost var g1 := State();
        OwnAddress((addr, rec[node].size));
        ok, gone := FreeShared(addr, (addr, rec[node].size));
        ObjectsOnce(slabs);
        SteadyOn(g, g1, State());
      } else {
        ok, gone := FreeShared(addr, u);
        ObjectsOnce(slabs);
        OthersRecords(rec, slabRecord.nodes, objs, slabs.Objects());
      }
    }

    lemma Rooted()
      requires Ordered()
      ensures slabRecord.nodes <= rec.Keys
      ensures if slabRecord.root == null then slabRecord.nodes == {} else slabRecord.root in slabRecord.nodes
    {
      slabRecord.Look(Top, slabRecord.shape);
    }

    /** One round of the loop of mm_slab_clear, around the destructor. */
    method ClearOne(node: RBNode) returns (ok: bool)
      requires Valid() && node in slabRecord.nodes
      modifies slabs.slab, slabs.buddy, slabs.buddy.pages, slabRecord, slabRecord.nodes`left, slabRecord.nodes`right,
               slabRecord.nodes`par, slabRecord.nodes`black
      ensures Valid() && rec == old(rec) && Steady(old(State()), State())
      ensures node in rec && slabRecord.nodes == old(slabRecord.nodes) - {node}
      ensures var (p, a) := ((rec[node].ptr, rec[node].size), (rec[node].addr, REC));
              && p in old(Private()) && a in old(Kept()) && Private() == old(Private()) - {p}
              && Kept() == old(Kept()) - {a} && slabs.Objects() == old(slabs.Objects()) - {p} - {a}
      ensures rec[node].ptr in old(Addresses()) && Addresses() == old(Addresses()) - {rec[node].ptr}
      ensures rec[node].size < 5 ==> ok
    {
      hide Size, Recorded, Steady, Ptrs, Recs, TaskMem.Ordered, SlabAlloc.Valid, SlabAlloc.Objects, SlabAlloc.Owned,
           InObject, TaskMem.State;
      ObjectsOnce(slabs);
      Rooted();
      ghost var objs, ns, g := slabs.Objects(), slabRecord.nodes, State();
      RecordLess(rec, ns, objs, node);
      AddressLess(rec, ns, objs, node);
      var record := rec[node];
      Leave(node);
      OwnAddress((record.ptr, record.size));
      OwnAddress((record.addr, REC));
      ghost var gone;
      ok, gone := FreeShared(record.ptr, (record.ptr, record.size));
      ghost var g1 := State();
      var r;
      r, gone := FreeShared(record.addr, (record.addr, REC));
      ObjectsOnce(slabs);
      SteadyOn(g, g1, State());
      ok := ok && r;
    }

    /** mm_slab_clear: exactly the private objects and their records are freed, and the destructor is
        called on each object once. */
    method Clear() returns (ok: bool, destroyed: seq<nat>)
      requires Valid()
      modifies slabs.slab, slabs.buddy, slabs.buddy.pages, slabRecord, slabRecord.nodes`left, slabRecord.nodes`right,
               slabRecord.nodes`par, slabRecord.nodes`black
      ensures Valid() && rec == old(rec) && Steady(old(State()), State())
      ensures Private() == {} && Kept() == {}
      ensures slabs.Objects() == old(slabs.Objects()) - old(Private()) - old(Kept())
      ensures NoDup(destroyed) && Members(destroyed) == old(Addresses())
      ensures (forall p | p in old(Private()) :: p.1 < 5) ==> ok
    {
      hide Size, Recorded, Steady, TaskMem.Ordered, SlabAlloc.Valid, SlabAlloc.Objects, SlabAlloc.Owned, InObject,
           Ptrs, Recs, NoDup, TaskMem.State;
      ok, destroyed := true, [];
      NothingKept(rec);
      ObjectsOnce(slabs);
      Rooted();
      ghost var objs, priv, kept, g := slabs.Objects(), Private(), Kept(), State();
      SteadyHere(g);
      while slabRecord.root != null
        invariant Valid() && rec == old(rec) && Steady(g, State()) && slabRecord.nodes <= rec.Keys
        invariant slabRecord.nodes <= old(slabRecord.nodes) && Classes(All(slabs.slab[..]))
        invariant Private() <= priv && Kept() <= kept
        invariant slabs.Objects() == objs - (priv - Private()) - (kept - Kept())
        invariant NoDup(destroyed) && Members(destroyed) + Addresses() == old(Addresses())
        invariant Members(destroyed) !! Addresses()
        invariant (forall p | p in priv :: p.1 < 5) ==> ok
        decreases |slabRecord.nodes|
      {
        Rooted();
        var node := slabRecord.root;
        ghost var g1 := State();
        ghost var p, k := Private(), Kept();
        var r := ClearOne(node);
        LessLeft(objs, priv, kept, p, k, (rec[node].ptr, rec[node].size), (rec[node].addr, REC));
        OnceMore(destroyed, rec[node].ptr);
        destroyed := destroyed + [rec[node].ptr];
        ObjectsOnce(slabs);
        SteadyOn(g, g1, State());
        ok := ok && r;
      }
      Rooted();
      NothingKept(rec);
    }
  }
}
