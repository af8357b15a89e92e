/**
 The tuple lists in memory: sdio_read_cis builds one for the card and one for each function, the
 lists of the functions run on into that of the card, and freeing must not free a tuple twice.
 */
module SdioCisStore {
  import opened Basics
  import opened Bits
  import opened SdioCis
  import opened SdioCisParse

  /** An address; 0 is NULL. */
  type Ptr = nat
  const NULL: Ptr := 0

  datatype Cell = Cell(next: Ptr, tuple: Tuple)

  type Heap = map<Ptr, Cell>

  // ----- lists -----

  /** The cells ps, one after the other from start, lead to end. */
  predicate Path(heap: Heap, start: Ptr, ps: seq<Ptr>, end: Ptr)
    decreases |ps|
  {
    if ps == [] then start == end
    else start == ps[0] && start != NULL && start in heap && Path(heap, heap[start].next, ps[1..], end)
  }

  ghost predicate Distinct(ps: seq<Ptr>) {
    forall i, j :: 0 <= i < j < |ps| ==> ps[i] != ps[j]
  }

  lemma {:induction false} PathFrame(heap: Heap, heap': Heap, start: Ptr, ps: seq<Ptr>, end: Ptr)
    requires Path(heap, start, ps, end)
    requires forall p :: p in ps ==> p in heap && p in heap' && heap'[p].next == heap[p].next
    ensures Path(heap', start, ps, end)
    decreases |ps|
  {
    if ps != [] {
      assert forall p :: p in ps[1..] ==> p in ps;
      PathFrame(heap, heap', heap[start].next, ps[1..], end);
    }
  }

  lemma {:induction false} PathInHeap(heap: Heap, start: Ptr, ps: seq<Ptr>, end: Ptr)
    requires Path(heap, start, ps, end)
    ensures forall p :: p in ps ==> p in heap && p != NULL
    decreases |ps|
  {
    if ps != [] {
      PathInHeap(heap, heap[start].next, ps[1..], end);
      assert ps == [start] + ps[1..];
    }
  }

  /** Where the pointer to the end of a list is kept: in its head, or in its last cell. */
  function Relink(heap: Heap, ps: seq<Ptr>, end: Ptr): Heap {
    if ps == [] || ps[|ps| - 1] !in heap then heap else heap[ps[|ps| - 1] := heap[ps[|ps| - 1]].(next := end)]
  }

  /** *prev = end. */
  lemma {:induction false} PathRelink(heap: Heap, start: Ptr, ps: seq<Ptr>, end: Ptr, end': Ptr)
    requires Path(heap, start, ps, end) && Distinct(ps)
    requires ps != [] ==> ps[|ps| - 1] in heap
    ensures Path(Relink(heap, ps, end'), if ps == [] then end' else start, ps, end')
    decreases |ps|
  {
    if |ps| == 1 {
      assert ps[1..] == [];
    } else if |ps| > 1 {
      var last := ps[|ps| - 1];
      assert Distinct(ps[1..]) && ps[1..][|ps| - 2] == last && last != start;
      PathRelink(heap, heap[start].next, ps[1..], end, end');
    }
  }

  lemma {:induction false} PathSnoc(heap: Heap, start: Ptr, ps: seq<Ptr>, p: Ptr)
    requires Path(heap, start, ps, p) && p in heap && p != NULL
    ensures Path(heap, start, ps + [p], heap[p].next)
    decreases |ps|
  {
    if ps == [] {
      assert [p][1..] == [];
    } else {
      assert (ps + [p])[1..] == ps[1..] + [p];
      PathSnoc(heap, heap[start].next, ps[1..], p);
    }
  }

  /** The tuples the cells hold. */
  ghost function Tuples(heap: Heap, ps: seq<Ptr>): seq<Tuple>
    requires forall p :: p in ps ==> p in heap
  {
    seq(|ps|, i requires 0 <= i < |ps| => heap[ps[i]].tuple)
  }

  /** SDIO_FBR_BASE(fn) + SDIO_FBR_CIS */
  function CisRegister(owner: Owner): nat {
    (match owner case Card => 0 case Func(n) => n * 0x100) + 0x09
  }

  datatype Start = At(ptr: nat) | NoStart(err: Errno)

  /** The pointer from its first n bytes, least significant first. */
  function CisStart(env: Env, r: nat, n: nat): Start {
    if n == 0 then At(0)
    else match CisStart(env, r, n - 1)
      case NoStart(e) => NoStart(e)
      case At(p) => match Direct(env, r + n - 1)
        case Fail(e) => NoStart(e)
        case Got(x) => At(p + Shl(x, 8 * (n - 1)))
  }

  lemma {:induction false} OrComm(x: nat, y: nat)
    ensures Or(x, y) == Or(y, x)
  {
    if x > 0 && y > 0 {
      OrComm(x / 2, y / 2);
    }
  }

  lemma PointerByte(ptr: nat, x: Byte, k: nat)
    requires ptr < Pow2(k)
    ensures Or(ptr, Shl(x, k)) == ptr + Shl(x, k) < Pow2(k + 8)
  {
    assert Pow2(8) == 256;
    OrComm(ptr, Shl(x, k));
    OrIsSum(x, ptr, k);
    ShlBound(x, 8, k);
  }

  lemma {:induction false} NoStartStays(env: Env, r: nat, i: nat, n: nat, e: Errno)
    requires i <= n && CisStart(env, r, i) == NoStart(e)
    ensures CisStart(env, r, n) == NoStart(e)
  {
    if i < n {
      NoStartStays(env, r, i, n - 1, e);
    }
  }

  /** There is always an address that is not in use. */
  lemma {:induction false} Beyond(keys: set<Ptr>) returns (bound: Ptr)
    ensures forall k :: k in keys ==> k < bound
    decreases |keys|
  {
    if keys == {} {
      bound := 0;
    } else {
      var k :| k in keys;
      var b := Beyond(keys - {k});
      bound := if b <= k then k + 1 else b;
      assert forall x :: x in keys ==> x == k || x in keys - {k};
    }
  }

  // ----- ownership -----

  /**
   The lists of all owners, seen at once: which cells each has, and which run on into the card's
   list, at its first cell root. Once the card has been released its list is gone and root dangles.
   */
  datatype Store = Store(heap: Heap, heads: map<Owner, Ptr>, lists: map<Owner, seq<Ptr>>, linked: set<Owner>,
                         homes: map<Ptr, Owner>, root: Ptr, gone: bool)

  ghost predicate Shape(s: Store) {
    && Card in s.heads && s.lists.Keys == s.heads.Keys && s.linked <= s.heads.Keys && Card !in s.linked
    && s.homes.Keys == s.heap.Keys && NULL !in s.heap && (s.root == NULL ==> s.linked == {})
    && (if s.gone then s.heads[Card] == NULL && s.root !in s.heap && s.lists[Card] == [] else s.heads[Card] == s.root)
  }

  ghost function End(s: Store, o: Owner): Ptr {
    if o in s.linked then s.root else NULL
  }

  /** The list of an owner leads where it should, over cells that are its own. */
  ghost predicate ListOk(s: Store, o: Owner)
    requires Shape(s) && o in s.lists
  {
    && Distinct(s.lists[o]) && Path(s.heap, s.heads[o], s.lists[o], End(s, o))
    && forall p :: p in s.lists[o] ==> p in s.homes && s.homes[p] == o
  }

  ghost predicate AtHome(s: Store, p: Ptr)
    requires p in s.homes
  {
    s.homes[p] in s.lists && p in s.lists[s.homes[p]]
  }

  /** Every cell is on exactly one list. */
  ghost predicate Valid(s: Store) {
    && Shape(s) && (forall o {:trigger ListOk(s, o)} :: o in s.lists ==> ListOk(s, o))
    && (forall p {:trigger AtHome(s, p)} :: p in s.homes ==> AtHome(s, p))
  }

  /** A list whose cells, head and end did not change is still in order. */
  lemma ListKept(s: Store, s': Store, o: Owner)
    requires Shape(s) && Shape(s') && o in s.lists && o in s'.lists && ListOk(s, o)
    requires s'.lists[o] == s.lists[o] && s'.heads[o] == s.heads[o] && End(s', o) == End(s, o)
    requires forall p :: p in s.heap && s.homes[p] == o ==> p in s'.heap && s'.heap[p].next == s.heap[p].next && s'.homes[p] == o
    ensures ListOk(s', o)
  {
    PathFrame(s.heap, s'.heap, s.heads[o], s.lists[o], End(s, o));
  }

  /** A list that can be added to: its card is there, it ends in NULL and nothing runs on into it. */
  ghost predicate Open(s: Store, o: Owner) {
    !s.gone && o !in s.linked && (o == Card ==> s.linked == {})
  }

  /** A new cell at the end of a list that does not run on. */
  function Append(s: Store, o: Owner, p: Ptr, tuple: Tuple): Store
    requires o in s.lists
  {
    Store(Relink(s.heap[p := Cell(NULL, tuple)], s.lists[o], p), if s.lists[o] == [] then s.heads[o := p] else s.heads,
          s.lists[o := s.lists[o] + [p]], s.linked, s.homes[p := o],
          if o == Card && s.lists[o] == [] then p else s.root, s.gone)
  }

  lemma AppendOwn(s: Store, o: Owner, p: Ptr, tuple: Tuple)
    requires Shape(s) && o in s.lists && ListOk(s, o) && Open(s, o)
    requires p != NULL && p !in s.heap
    ensures Shape(Append(s, o, p, tuple)) && ListOk(Append(s, o, p, tuple), o)
    ensures Tuples(Append(s, o, p, tuple).heap, s.lists[o] + [p]) == Tuples(s.heap, s.lists[o]) + [tuple]
  {
    var ps := s.lists[o];
    PathInHeap(s.heap, s.heads[o], ps, NULL);
    var s' := Append(s, o, p, tuple);
    var grown := s.heap[p := Cell(NULL, tuple)];
    PathFrame(s.heap, grown, s.heads[o], ps, NULL);
    PathRelink(grown, s.heads[o], ps, NULL, p);
    PathSnoc(s'.heap, s'.heads[o], ps, p);
  }

  lemma AppendValid(s: Store, o: Owner, p: Ptr, tuple: Tuple)
    requires Valid(s) && o in s.lists && Open(s, o)
    requires p != NULL && p !in s.heap
    ensures Valid(Append(s, o, p, tuple))
  {
    assert ListOk(s, o);
    AppendOwn(s, o, p, tuple);
    var s' := Append(s, o, p, tuple);
    forall o' | o' in s'.lists
      ensures ListOk(s', o')
    {
      if o' != o {
        ListKept(s, s', o');
      }
    }
    forall q | q in s'.homes
      ensures AtHome(s', q)
    {
      assert q != p ==> AtHome(s, q);
    }
  }

  /** The tuples on an owner's own cells. */
  ghost function Contents(s: Store, o: Owner): seq<Tuple>
    requires Valid(s) && o in s.lists
  {
    assert ListOk(s, o);
    Tuples(s.heap, s.lists[o])
  }

  /** Nothing but the list of one owner has changed. */
  ghost predicate OnlyList(s: Store, s': Store, o: Owner) {
    && s'.lists.Keys == s.lists.Keys && s'.heads.Keys == s.heads.Keys && s'.linked - {o} == s.linked - {o}
    && s'.gone == s.gone && (o != Card ==> s'.root == s.root)
    && (forall o' :: o' in s.lists && o' != o ==> s'.lists[o'] == s.lists[o'])
    && (forall o' :: o' in s.heads && o' != o ==> s'.heads[o'] == s.heads[o'])
    && (forall p :: p in s.homes && s.homes[p] != o ==> p in s'.homes && s'.homes[p] == s.homes[p])
    && (forall p :: p in s.heap && p in s.homes && s.homes[p] != o ==> p in s'.heap && s'.heap[p] == s.heap[p])
  }

  lemma OnlyListAgain(s: Store, s': Store, s'': Store, o: Owner)
    requires OnlyList(s, s', o) && OnlyList(s', s'', o)
    ensures OnlyList(s, s'', o)
  {
  }

  function Last(ps: seq<Ptr>): Ptr {
    if ps == [] then NULL else ps[|ps| - 1]
  }

  lemma AppendStep(s: Store, o: Owner, p: Ptr, tuple: Tuple)
    requires Valid(s) && o in s.lists && Open(s, o) && p != NULL && p !in s.heap
    ensures var s' := Append(s, o, p, tuple);
            && Valid(s') && Open(s', o) && Last(s'.lists[o]) == p && OnlyList(s, s', o)
            && Contents(s', o) == Contents(s, o) + [tuple]
    ensures s.lists[o] != [] ==> Last(s.lists[o]) in s.heap && Last(s.lists[o]) != NULL
  {
    AppendValid(s, o, p, tuple);
    assert ListOk(s, o);
    AppendOwn(s, o, p, tuple);
    PathInHeap(s.heap, s.heads[o], s.lists[o], NULL);
  }

  /** *prev = card->tuples at the end of a function's list. */
  function Link(s: Store, o: Owner): Store
    requires o in s.lists && Card in s.heads
  {
    var e := s.heads[Card];
    s.(heap := Relink(s.heap, s.lists[o], e), heads := if s.lists[o] == [] then s.heads[o := e] else s.heads,
       linked := if e == NULL then s.linked else s.linked + {o})
  }

  lemma LinkValid(s: Store, o: Owner)
    requires Valid(s) && o in s.lists && Open(s, o) && o != Card
    ensures Valid(Link(s, o))
  {
    assert ListOk(s, o);
    var ps, e := s.lists[o], s.heads[Card];
    PathInHeap(s.heap, s.heads[o], ps, NULL);
    var s' := Link(s, o);
    PathRelink(s.heap, s.heads[o], ps, NULL, e);
    assert ListOk(s', o);
    forall o' | o' in s'.lists
      ensures ListOk(s', o')
    {
      if o' != o {
        ListKept(s, s', o');
      }
    }
    forall q | q in s'.homes
      ensures AtHome(s', q)
    {
      assert AtHome(s, q);
    }
  }

  lemma LinkStep(s: Store, o: Owner)
    requires Valid(s) && o in s.lists && Open(s, o) && o != Card
    ensures var s' := Link(s, o);
            && Valid(s') && OnlyList(s, s', o) && Contents(s', o) == Contents(s, o)
            && (o in s'.linked <==> s.heads[Card] != NULL)
    ensures s.lists[o] != [] ==> Last(s.lists[o]) in s.heap && Last(s.lists[o]) != NULL
  {
    LinkValid(s, o);
    assert ListOk(s, o);
    PathInHeap(s.heap, s.heads[o], s.lists[o], NULL);
  }

  /** An empty head means an empty list that does not run on. */
  lemma HeadNull(s: Store, o: Owner)
    requires Valid(s) && o in s.lists && s.heads[o] == NULL && !s.gone
    ensures s.lists[o] == [] && Open(s, o) && Contents(s, o) == []
  {
    assert ListOk(s, o);
    assert s.lists[o] == [];
  }

  // ----- freeing -----

  ghost function Cells(ps: seq<Ptr>): set<Ptr> {
    set p | p in ps
  }

  /**
   The freeing loops as memory sees them: follow the pointers to NULL or to stop, giving back each
   cell; the second component is what was given back. None when the loop runs into a cell that is gone.
   */
  function FreeLoop(heap: Heap, tuple: Ptr, stop: Ptr): Option<(Heap, seq<Ptr>)>
    decreases heap.Keys
  {
    if tuple == NULL || tuple == stop then Some((heap, []))
    else if tuple !in heap then None
    else
      match FreeLoop(heap - {tuple}, heap[tuple].next, stop)
      case None => None
      case Some((rest, freed)) => Some((rest, [tuple] + freed))
  }

  /** On any memory at all, a loop that comes to its end gives back cells in use, each once. */
  lemma {:induction false} FreeLoopOnce(heap: Heap, tuple: Ptr, stop: Ptr)
    requires FreeLoop(heap, tuple, stop).Some?
    ensures var (rest, freed) := FreeLoop(heap, tuple, stop).value;
            Distinct(freed) && Cells(freed) <= heap.Keys && rest == heap - Cells(freed)
    decreases heap.Keys
  {
    if tuple != NULL && tuple != stop {
      FreeLoopOnce(heap - {tuple}, heap[tuple].next, stop);
      var freed := FreeLoop(heap - {tuple}, heap[tuple].next, stop).value.1;
      assert forall p :: p in freed ==> p in Cells(freed);
      assert Cells([tuple] + freed) == {tuple} + Cells(freed);
    }
  }

  /** Along a path the loop gives back the path, if that ends where the loop does; a dangling end is run into. */
  lemma {:induction false} FreeLoopOnPath(heap: Heap, start: Ptr, ps: seq<Ptr>, end: Ptr, stop: Ptr)
    requires Path(heap, start, ps, end) && Distinct(ps) && stop !in ps
    ensures end == NULL || end == stop ==> FreeLoop(heap, start, stop) == Some((heap - Cells(ps), ps))
    ensures end != NULL && end != stop && end !in heap ==> FreeLoop(heap, start, stop) == None
    decreases |ps|
  {
    if ps == [] {
      assert heap - Cells([]) == heap;
    } else {
      var rest := ps[1..];
      var heap' := heap - {start};
      assert Distinct(rest) && forall p :: p in rest ==> p in ps;
      PathInHeap(heap, heap[start].next, rest, end);
      PathFrame(heap, heap', heap[start].next, rest, end);
      FreeLoopOnPath(heap', heap[start].next, rest, end, stop);
      assert ps == [start] + rest;
      assert Cells(ps) == {start} + Cells(rest);
      assert heap' - Cells(rest) == heap - Cells(ps);
    }
  }

  /** Where the freeing loop for an owner stops besides NULL: at the head of the card's list as it is then. */
  function Stop(heads: map<Owner, Ptr>, o: Owner): Ptr
    requires Card in heads
  {
    if o == Card then NULL else heads[Card]
  }

  /** A zeroed function structure has an empty list. */
  lemma NewOwner(s: Store, o: Owner)
    requires Valid(s) && o !in s.heads
    ensures Valid(s.(heads := s.heads[o := NULL], lists := s.lists[o := []]))
  {
    var s' := s.(heads := s.heads[o := NULL], lists := s.lists[o := []]);
    forall o' | o' in s'.lists
      ensures ListOk(s', o')
    {
      if o' != o {
        assert ListOk(s, o');
        ListKept(s, s', o');
      }
    }
    forall q | q in s'.homes
      ensures AtHome(s', q)
    {
      assert AtHome(s, q);
    }
  }

  /** The owner and its own cells are gone. */
  ghost function Freed(s: Store, o: Owner): Store
    requires o in s.lists
  {
    var cells := Cells(s.lists[o]);
    Store(s.heap - cells, if o == Card then s.heads[Card := NULL] else s.heads - {o},
          if o == Card then s.lists[Card := []] else s.lists - {o}, s.linked - {o}, s.homes - cells,
          s.root, s.gone || o == Card)
  }

  /** The first cell of the card's list is on no other list. */
  lemma RootApart(s: Store, o: Owner)
    requires Valid(s) && o in s.lists && o != Card
    ensures s.root !in s.lists[o]
  {
    assert ListOk(s, o) && ListOk(s, Card);
    PathInHeap(s.heap, s.heads[o], s.lists[o], End(s, o));
    if !s.gone && s.root != NULL {
      assert s.lists[Card][0] == s.root;
    }
  }

  lemma FreedShape(s: Store, o: Owner)
    requires Valid(s) && o in s.lists
    ensures Shape(Freed(s, o))
  {
    assert ListOk(s, o) && ListOk(s, Card);
    if o == Card && !s.gone && s.root != NULL {
      assert s.lists[Card][0] == s.root;
    }
  }

  lemma FreedValid(s: Store, o: Owner)
    requires Valid(s) && o in s.lists
    ensures Valid(Freed(s, o))
  {
    var s' := Freed(s, o);
    FreedShape(s, o);
    assert ListOk(s, o);
    forall o' | o' in s'.lists
      ensures ListOk(s', o')
    {
      assert ListOk(s, o');
      if o' != o {
        ListKept(s, s', o');
      }
    }
    forall q | q in s'.homes
      ensures AtHome(s', q)
    {
      assert AtHome(s, q);
    }
  }

  // ----- what drivers see, and what is left after freeing -----

  lemma {:induction false} PathConcat(heap: Heap, start: Ptr, ps: seq<Ptr>, mid: Ptr, qs: seq<Ptr>, end: Ptr)
    requires Path(heap, start, ps, mid) && Path(heap, mid, qs, end)
    ensures Path(heap, start, ps + qs, end)
    decreases |ps|
  {
    if ps == [] {
      assert ps + qs == qs;
    } else {
      PathConcat(heap, heap[start].next, ps[1..], mid, qs, end);
      assert (ps + qs)[1..] == ps[1..] + qs;
    }
  }

  /** A driver following the pointers of its function sees its own tuples, then those of the card. */
  lemma FunctionSeesCommon(s: Store, o: Owner)
    requires Valid(s) && o in s.linked && !s.gone
    ensures Path(s.heap, s.heads[o], s.lists[o] + s.lists[Card], NULL)
    ensures forall p :: p in s.lists[o] ==> p !in s.lists[Card]
  {
    assert ListOk(s, o) && ListOk(s, Card);
    PathConcat(s.heap, s.heads[o], s.lists[o], s.heads[Card], s.lists[Card], NULL);
  }

  /** Freeing the list of one owner in memory, and the memory it leaves; an owner that is gone has no list. */
  function FreeOwner(heap: Heap, heads: map<Owner, Ptr>, o: Owner): Option<(Heap, map<Owner, Ptr>, seq<Ptr>)>
    requires Card in heads
  {
    if o !in heads then Some((heap, heads, []))
    else
      match FreeLoop(heap, heads[o], Stop(heads, o))
      case None => None
      case Some((rest, freed)) => Some((rest, if o == Card then heads[Card := NULL] else heads - {o}, freed))
  }

  /** Freeing a number of lists, one owner after the other. */
  function FreeInOrder(heap: Heap, heads: map<Owner, Ptr>, order: seq<Owner>): Option<(Heap, seq<Ptr>)>
    requires Card in heads
    decreases |order|
  {
    if order == [] then Some((heap, []))
    else
      match FreeOwner(heap, heads, order[0])
      case None => None
      case Some((heap', heads', freed)) =>
        match FreeInOrder(heap', heads', order[1..])
        case None => None
        case Some((rest, later)) => Some((rest, freed + later))
  }

  /** One owner's loop fails just when it runs on into the list of a card that is gone; otherwise it frees its own cells. */
  lemma FreeOwnerIff(s: Store, o: Owner)
    requires Valid(s) && o in s.lists
    ensures var r := FreeOwner(s.heap, s.heads, o);
            && (r.Some? <==> !(s.gone && o in s.linked))
            && (r.Some? ==> r.value == (Freed(s, o).heap, Freed(s, o).heads, s.lists[o]))
  {
    assert ListOk(s, o);
    PathInHeap(s.heap, s.heads[o], s.lists[o], End(s, o));
    if o != Card {
      RootApart(s, o);
    }
    FreeLoopOnPath(s.heap, s.heads[o], s.lists[o], End(s, o), Stop(s.heads, o));
  }

  /** What the freeing loop for an owner leaves, unless it runs on into the list of a card that is gone. */
  lemma FreeLoopLeaves(s: Store, o: Owner)
    requires Valid(s) && o in s.lists && !(s.gone && o in s.linked)
    ensures FreeLoop(s.heap, s.heads[o], Stop(s.heads, o)).Some?
    ensures FreeLoop(s.heap, s.heads[o], Stop(s.heads, o)).value.0 == Freed(s, o).heap
  {
    FreeOwnerIff(s, o);
  }

  /** In an order, everybody who runs on into the card's list goes before the card. */
  ghost predicate CardAfterLinked(linked: set<Owner>, order: seq<Owner>) {
    forall i, j :: 0 <= i < |order| && 0 <= j < |order| && order[i] == Card && order[j] in linked ==> j < i
  }

  ghost predicate EachOnce(order: seq<Owner>) {
    forall i, j :: 0 <= i < j < |order| ==> order[i] != order[j]
  }

  /** The order is one the card and its sharers can go in. */
  ghost predicate GoodOrder(s: Store, order: seq<Owner>) {
    CardAfterLinked(s.linked, order) && (s.gone ==> forall o :: o in order ==> o !in s.linked)
  }

  lemma OrderFrom(s: Store, order: seq<Owner>)
    requires Valid(s) && EachOnce(order) && order != [] && order[0] in s.lists
    ensures EachOnce(order[1..])
    ensures GoodOrder(s, order) <==> !(s.gone && order[0] in s.linked) && GoodOrder(Freed(s, order[0]), order[1..])
  {
    var rest := order[1..];
    var s' := Freed(s, order[0]);
    assert forall i :: 0 <= i < |rest| ==> rest[i] == order[i + 1] && rest[i] != order[0];
    assert forall o :: o in order <==> o == order[0] || o in rest;
    forall j | 1 <= j < |order|
      ensures order[j] in rest
    {
      assert order[j] == rest[j - 1];
    }
    if GoodOrder(s, order) && order[0] == Card {
      forall o | o in rest
        ensures o !in s.linked
      {
        var j :| 0 <= j < |rest| && rest[j] == o;
        assert order[0] == Card && order[j + 1] == o;
      }
    }
    if GoodOrder(s', rest) {
      forall i, j | 0 <= i < |order| && 0 <= j < |order| && order[i] == Card && order[j] in s.linked
        ensures j < i
      {
        if i > 0 && j > 0 {
          assert rest[i - 1] == Card && rest[j - 1] in s'.linked;
        }
      }
    }
  }

  /** The general form, from a card that may be gone already. */
  lemma {:induction false} FreeInOrderFrom(s: Store, order: seq<Owner>)
    requires Valid(s) && EachOnce(order) && forall o :: o in order ==> o in s.lists
    ensures FreeInOrder(s.heap, s.heads, order).Some? <==> GoodOrder(s, order)
    ensures FreeInOrder(s.heap, s.heads, order).Some? ==>
              var (rest, freed) := FreeInOrder(s.heap, s.heads, order).value;
              Distinct(freed) && Cells(freed) <= s.heap.Keys && rest == s.heap - Cells(freed)
    decreases |order|
  {
    if order == [] {
      assert s.heap - Cells([]) == s.heap;
    } else {
      var o := order[0];
      FreeOwnerIff(s, o);
      FreedValid(s, o);
      OrderFrom(s, order);
      assert forall o' :: o' in order[1..] ==> o' in order && o' != o;
      if FreeOwner(s.heap, s.heads, o).Some? {
        FreeInOrderFrom(Freed(s, o), order[1..]);
        assert ListOk(s, o);
        if FreeInOrder(Freed(s, o).heap, Freed(s, o).heads, order[1..]).Some? {
          FreedCells(s, o, FreeInOrder(Freed(s, o).heap, Freed(s, o).heads, order[1..]).value.1);
        }
      }
    }
  }

  /** The cells of an owner, then cells that are still there without it. */
  lemma FreedCells(s: Store, o: Owner, later: seq<Ptr>)
    requires Shape(s) && o in s.lists && ListOk(s, o)
    requires Distinct(later) && Cells(later) <= Freed(s, o).heap.Keys
    ensures Distinct(s.lists[o] + later) && Cells(s.lists[o] + later) <= s.heap.Keys
    ensures Freed(s, o).heap - Cells(later) == s.heap - Cells(s.lists[o] + later)
  {
    var ps := s.lists[o];
    PathInHeap(s.heap, s.heads[o], ps, End(s, o));
    assert forall p :: p in later ==> p in Cells(later);
    assert forall p :: p in ps ==> p in Cells(ps);
    assert Cells(ps + later) == Cells(ps) + Cells(later);
    forall i, j | 0 <= i < j < |ps + later|
      ensures (ps + later)[i] != (ps + later)[j]
    {
      if i < |ps| <= j {
        assert later[j - |ps|] in later && ps[i] in ps;
      }
    }
  }

  /**
   With any number of functions sharing the card's list, the loops come to their ends, on cells in
   use only and freeing each once, if and only if every function that runs on into the card's list
   goes before the card.
   */
  lemma FreedOnceIff(s: Store, order: seq<Owner>)
    requires Valid(s) && !s.gone && EachOnce(order) && forall o :: o in order ==> o in s.lists
    ensures FreeInOrder(s.heap, s.heads, order).Some? <==> CardAfterLinked(s.linked, order)
    ensures FreeInOrder(s.heap, s.heads, order).Some? ==>
              var (rest, freed) := FreeInOrder(s.heap, s.heads, order).value;
              Distinct(freed) && Cells(freed) <= s.heap.Keys && rest == s.heap - Cells(freed)
  {
    FreeInOrderFrom(s, order);
  }

  /** The card's list 2, and the function's list 1 that runs on into it: freed first, the card leaves a dangling end. */
  lemma CardTooEarly(t: Tuple)
    ensures var heap: Heap := map[1 := Cell(2, t), 2 := Cell(NULL, t)];
            var heads: map<Owner, Ptr> := map[Card := 2, Func(1) := 1];
            && FreeInOrder(heap, heads, [Card, Func(1)]) == None
            && FreeInOrder(heap, heads, [Func(1), Card]) == Some((map[], [1, 2]))
  {
    var heap: Heap := map[1 := Cell(2, t), 2 := Cell(NULL, t)];
    var heads: map<Owner, Ptr> := map[Card := 2, Func(1) := 1];
    var only1, only2: Heap := map[1 := Cell(2, t)], map[2 := Cell(NULL, t)];
    assert heap - {1} == only2 && heap - {2} == only1 && only2 - {2} == map[] && only1 - {1} == map[];
    assert [1] + [] == [1] && [2] + [] == [2] && [1] + [2] == [1, 2];
    assert [Card, Func(1)][1..] == [Func(1)] && [Func(1), Card][1..] == [Card];
    assert FreeLoop(only1, NULL, NULL) == Some((only1, []));
    assert FreeOwner(heap, heads, Card) == Some((only1, heads[Card := NULL], [2]));
    assert FreeLoop(map[], 2, NULL) == None;
    assert FreeLoop(only1, 1, NULL) == None;
    assert heads - {Func(1)} == map[Card := 2];
    assert FreeLoop(only2, 2, 2) == Some((only2, []));
    assert FreeOwner(heap, heads, Func(1)) == Some((only2, heads - {Func(1)}, [1]));
    assert FreeLoop(only2, 2, NULL) == Some((map[], [2]));
  }

  /** Nothing is left in memory just when no owner has a tuple of its own. */
  lemma HeapEmptyIff(s: Store)
    requires Valid(s)
    ensures s.heap == map[] <==> forall o :: o in s.lists ==> s.lists[o] == []
  {
    assert forall p :: p in s.heap ==> AtHome(s, p);
    forall o | o in s.lists
      ensures s.heap == map[] ==> s.lists[o] == []
    {
      assert ListOk(s, o);
    }
    if forall o :: o in s.lists ==> s.lists[o] == [] {
      assert s.heap.Keys == {};
    }
  }

  /** Some owners are gone: the others have their lists, and the card has its own unless it has gone too. */
  ghost predicate Without(s: Store, s': Store, left: set<Owner>) {
    && s'.heads.Keys == s.heads.Keys - left && s'.lists.Keys == s.lists.Keys - left
    && (forall o :: o in s'.lists && o != Card ==> s'.lists[o] == s.lists[o])
    && (s.gone ==> s'.gone)
    && Card in s.lists && Card in s'.lists && s'.lists[Card] == if s'.gone && !s.gone then [] else s.lists[Card]
  }

  lemma FreedWithout(s: Store, o: Owner)
    requires Valid(s) && o in s.lists
    ensures o != Card ==> Without(s, Freed(s, o), {o})
    ensures o == Card ==> Without(s, Freed(s, o), {})
  {
  }

  lemma WithoutMore(s: Store, s': Store, s'': Store, left: set<Owner>, more: set<Owner>)
    requires Without(s, s', left) && Without(s', s'', more)
    ensures Without(s, s'', left + more)
  {
  }

  /** What is left in memory without some owners: the lists of the others, and the card's unless it went too. */
  lemma LeftBehind(s: Store, s': Store, left: set<Owner>)
    requires Valid(s') && !s.gone && Card !in left && Without(s, s', left)
    ensures s'.heap == map[] <==>
              && (s'.gone || s.lists[Card] == [])
              && forall o :: o in s.lists && o !in left && o != Card ==> s.lists[o] == []
  {
    HeapEmptyIff(s');
    assert forall o :: o in s'.lists <==> o in s.lists && o !in left;
    if s'.heap == map[] {
      assert forall o :: o in s.lists && o !in left ==> o in s'.lists;
    }
  }

  lemma NothingBehind(s: Store, s': Store, left: set<Owner>)
    requires Valid(s') && !s.gone && Card !in left && Without(s, s', left)
    requires s.heads.Keys <= left + {Card} ==> s'.gone
    ensures s'.heads.Keys == {Card} && s'.heap == map[] && s'.gone <==> s.heads.Keys <= left + {Card}
  {
    LeftBehind(s, s', left);
    if s'.heads.Keys == {Card} {
      assert forall o :: o in s.heads.Keys && o !in left ==> o in s'.heads.Keys;
    }
    if s.heads.Keys <= left + {Card} {
      assert s'.heads.Keys == {Card} && s'.lists.Keys == {Card};
      assert forall o :: o in s.lists && o !in left && o != Card ==> o in s'.lists;
    }
  }
}
