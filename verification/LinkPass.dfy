/** The link pass on the objects themselves: units whose relation maps hold pointers to one another, updated in
    place while the list, the unit's relations and each relation are iterated. The order in which maps iterate is
    not fixed: every choice the methods make is left open, and what they leave is proved for all choices. */
module LinkPass {
  import opened Linker

  class Daemon {
    const name: Name
    var relations: map<Kind, map<Name, Daemon?>>

    constructor (name: Name)
      ensures this.name == name && relations == map[]
    {
      this.name := name;
      relations := map[];
    }

    predicate Has(k: Kind, dep: Name)
      reads this
    {
      k in relations && dep in relations[k]
    }

    ghost function Get(k: Kind, dep: Name): Daemon?
      reads this
    {
      if Has(k, dep) then relations[k][dep] else null
    }

    method Put(k: Kind, dep: Name, target: Daemon?)
      modifies this
      ensures forall k', x :: Has(k', x) <==> old(Has(k', x)) || (k' == k && x == dep)
      ensures forall k', x :: Get(k', x) == if k' == k && x == dep then target else old(Get(k', x))
    {
      var entries := if k in relations then relations[k] else map[];
      relations := relations[k := entries[dep := target]];
    }
  }

  class Daemons {
    var list: map<Name, Daemon>

    constructor ()
      ensures list == map[]
    {
      list := map[];
    }

    ghost predicate Valid()
      reads this
    {
      forall n :: n in list ==> list[n].name == n
    }

    /** What a stored pointer is, seen from the list. */
    ghost function RefTo(p: Daemon?): Ref
      reads this
    {
      if p == null then Nil
      else if p.name in list && list[p.name] == p then Unit(p.name)
      else Stale
    }

    ghost predicate Entry(key: Key)
      reads this, list.Values
    {
      key.owner in list && list[key.owner].Has(key.kind, key.dep)
    }

    ghost function EntryKeys(): (keys: set<Key>)
      reads this, list.Values
      ensures forall key :: key in keys <==> Entry(key)
    {
      var keys := set n, k, dep | n in list && k in list[n].relations && dep in list[n].relations[k] :: Key(n, k, dep);
      assert forall key :: Entry(key) ==> Key(key.owner, key.kind, key.dep) in keys;
      keys
    }

    /** All entries of all loaded units. */
    ghost function Entries(): Links
      reads this, list.Values
    {
      map key | key in EntryKeys() :: RefTo(list[key.owner].Get(key.kind, key.dep))
    }

    method Write(d: Daemon, k: Kind, dep: Name, target: Daemon?)
      requires Valid() && d.name in list && list[d.name] == d
      requires RefTo(target) == RefOf(list.Keys, dep)
      modifies d
      ensures Entries() == Overlay(old(Entries()), list.Keys, {Key(d.name, k, dep)})
    {
      ghost var before := Entries();
      d.Put(k, dep, target);
      forall n | n in list && n != d.name
        ensures list[n] != d
      {
      }
      ghost var here := Key(d.name, k, dep);
      forall key
        ensures Entry(key) <==> key in before || key == here
      {
      }
      forall key | key in Entries()
        ensures Entries()[key] == if key == here then RefOf(list.Keys, dep) else before[key]
      {
      }
      OverlayOne(before, list.Keys, here, Entries());
    }

    /** One entry: point it at the list's object (or nil), and give that unit the entry back. */
    method LinkEntry(d: Daemon, k: Kind, dep: Name)
      requires Valid() && d.name in list && list[d.name] == d && dep != d.name
      modifies list.Values
      ensures Entries() == Overlay(old(Entries()), list.Keys, EntryWrites(list.Keys, d.name, k, dep))
    {
      hide Overlay, EntryWrites, SelfKind, Inverse, Entries;
      ghost var before := Entries();
      EntryWritesAre(list.Keys, d.name, k, dep);
      Write(d, SelfKind(k), dep, if dep in list then list[dep] else null);
      if dep in list {
        Write(list[dep], Inverse(k), d.name, d);
        OverlayTwice(before, list.Keys, {Key(d.name, SelfKind(k), dep)}, {Key(dep, Inverse(k), d.name)});
      }
    }

    method NamesIn(d: Daemon, k: Kind) returns (names: set<Name>)
      requires Valid() && d.name in list && list[d.name] == d
      ensures forall x :: x in names <==> Key(d.name, k, x) in Entries()
    {
      names := if k in d.relations then d.relations[k].Keys else {};
      forall x
        ensures x in names <==> Key(d.name, k, x) in Entries()
      {
        assert Key(d.name, k, x) in Entries() <==> Entry(Key(d.name, k, x));
      }
    }

    /** One of the loops of the pass: all entries of one relation of one unit. */
    method LinkKind(d: Daemon, k: Kind)
      requires Valid() && d.name in list && list[d.name] == d
      requires Linkable(Entries(), list.Keys)
      modifies list.Values
      ensures Entries() == Overlay(old(Entries()), list.Keys, KindWrites(old(Entries()).Keys, list.Keys, d.name, k))
    {
      ghost var before := Entries();
      assert forall x :: Key(d.name, k, x) in before ==> x != d.name;
      hide DepsWrites, EntryWrites, KindWrites, Overlay, Linkable, Entries;
      var todo := NamesIn(d, k);
      ghost var done: set<Name> := {};
      ghost var w: set<Key> := {};
      OverlayNone(before, list.Keys);
      NoDepWrites(list.Keys, d.name, k);
      while todo != {}
        invariant forall x :: x in todo || x in done <==> Key(d.name, k, x) in before
        invariant w == DepsWrites(list.Keys, d.name, k, done)
        invariant Entries() == Overlay(before, list.Keys, w)
        decreases todo
      {
        var dep :| dep in todo;
        assert Key(d.name, k, dep) in before;
        LinkEntry(d, k, dep);
        OverlayTwice(before, list.Keys, w, EntryWrites(list.Keys, d.name, k, dep));
        NextDepWrites(list.Keys, d.name, k, done, dep);
        todo, done, w := todo - {dep}, done + {dep}, w + EntryWrites(list.Keys, d.name, k, dep);
      }
      KindWritesUnion(before.Keys, list.Keys, d.name, k, done);
    }

    /** One unit's turn: its relations one after the other. */
    method LinkUnit(d: Daemon)
      requires Valid() && d.name in list && list[d.name] == d
      requires Linkable(Entries(), list.Keys)
      modifies list.Values
      ensures Entries() == Overlay(old(Entries()), list.Keys, TurnWrites(old(Entries()).Keys, list.Keys, d.name))
    {
      ghost var before := Entries();
      ghost var w := FirstKindsWrites(before.Keys, list.Keys, d.name, 0);
      assert w == {};
      OverlayNone(before, list.Keys);
      for j := 0 to 18
        invariant w == FirstKindsWrites(before.Keys, list.Keys, d.name, j)
        invariant Entries() == Overlay(before, list.Keys, w)
      {
        KindSeesTheSame(before, list.Keys, d.name, j);
        LinkKind(d, KindAt(j));
        OverlayTwice(before, list.Keys, w, KindWrites(before.Keys, list.Keys, d.name, KindAt(j)));
        w := w + KindWrites(before.Keys, list.Keys, d.name, KindAt(j));
        NextKindWrites(before.Keys, list.Keys, d.name, j);
      }
      AllKindsWrites(before.Keys, list.Keys, d.name);
    }

    /** The whole pass. */
    method Link() returns (ghost order: seq<Name>)
      requires Valid() && Linkable(Entries(), list.Keys)
      modifies list.Values
      ensures OrderOf(order, list.Keys) && Entries() == Pass(old(Entries()), list.Keys, order)
    {
      ghost var before := Entries();
      order := [];
      var todo := list.Keys;
      assert Pass(before, list.Keys, []) == before;
      while todo != {}
        invariant NoRepeats(order)
        invariant forall x :: x in order <==> x in list && x !in todo
        invariant todo <= list.Keys
        invariant Entries() == Pass(before, list.Keys, order)
        decreases todo
      {
        var n :| n in todo;
        PassLinkable(before, list.Keys, order);
        LinkUnit(list[n]);
        PassSnoc(before, list.Keys, order, n);
        todo, order := todo - {n}, order + [n];
      }
    }

    /** What the pass leaves, for every way the maps may iterate: each relation is closed. */
    method LinkDeclared()
      requires Valid() && Linkable(Entries(), list.Keys) && NoRequisites(Entries())
      modifies list.Values
      ensures Entries() == Closed(old(Entries()), list.Keys)
    {
      ghost var order := Link();
      PassIsClosed(old(Entries()), list.Keys, order);
    }
  }

  // ---- the loops as sets of writes

  function EntryWrites(loaded: set<Name>, u: Name, k: Kind, dep: Name): set<Key> {
    {Key(u, SelfKind(k), dep)} + if dep in loaded then {Key(dep, Inverse(k), u)} else {}
  }

  function KindWrites(present: set<Key>, loaded: set<Name>, u: Name, k: Kind): set<Key> {
    (set key | key in present && key.owner == u && key.kind == k :: Key(u, SelfKind(k), key.dep)) +
    (set key | key in present && key.owner == u && key.kind == k && key.dep in loaded :: Key(key.dep, Inverse(k), u))
  }

  lemma EntryWritesAre(loaded: set<Name>, u: Name, k: Kind, dep: Name)
    ensures EntryWrites(loaded, u, k, dep) ==
            if dep in loaded then {Key(u, SelfKind(k), dep)} + {Key(dep, Inverse(k), u)} else {Key(u, SelfKind(k), dep)}
  {
  }

  lemma OverlayOne(d: Links, loaded: set<Name>, here: Key, e: Links)
    requires forall key :: key in e <==> key in d || key == here
    requires forall key :: key in e ==> e[key] == if key == here then RefOf(loaded, here.dep) else d[key]
    ensures e == Overlay(d, loaded, {here})
  {
  }

  lemma OverlayNone(d: Links, loaded: set<Name>)
    ensures Overlay(d, loaded, {}) == d
  {
  }

  lemma OverlayTwice(d: Links, loaded: set<Name>, w1: set<Key>, w2: set<Key>)
    ensures Overlay(Overlay(d, loaded, w1), loaded, w2) == Overlay(d, loaded, w1 + w2)
  {
  }

  function DepsWrites(loaded: set<Name>, u: Name, k: Kind, deps: set<Name>): set<Key> {
    (set x | x in deps :: Key(u, SelfKind(k), x)) + (set x | x in deps && x in loaded :: Key(x, Inverse(k), u))
  }

  lemma NoDepWrites(loaded: set<Name>, u: Name, k: Kind)
    ensures DepsWrites(loaded, u, k, {}) == {}
  {
  }

  lemma NextDepWrites(loaded: set<Name>, u: Name, k: Kind, deps: set<Name>, x: Name)
    ensures DepsWrites(loaded, u, k, deps + {x}) == DepsWrites(loaded, u, k, deps) + EntryWrites(loaded, u, k, x)
  {
  }

  lemma KindWritesUnion(present: set<Key>, loaded: set<Name>, u: Name, k: Kind, deps: set<Name>)
    requires forall x :: x in deps <==> Key(u, k, x) in present
    ensures DepsWrites(loaded, u, k, deps) == KindWrites(present, loaded, u, k)
  {
    forall x | x in deps
      ensures Key(u, SelfKind(k), x) in KindWrites(present, loaded, u, k)
      ensures x in loaded ==> Key(x, Inverse(k), u) in KindWrites(present, loaded, u, k)
    {
      var key := Key(u, k, x);
      assert key in present && key.owner == u && key.kind == k && key.dep == x;
    }
    forall key | key in present && key.owner == u && key.kind == k
      ensures key.dep in deps
    {
      assert key == Key(u, k, key.dep);
    }
  }

  /** The relations in the order their loops come. */
  function KindAt(j: nat): Kind
    requires j < 18
  {
    match j
    case 0 => Requires   case 1 => RequiredBy   case 2 => Wants       case 3 => WantedBy
    case 4 => Requisite  case 5 => RequisiteOf  case 6 => BindsTo     case 7 => BoundBy
    case 8 => PartOf     case 9 => ConsistsOf   case 10 => Upholds    case 11 => UpheldBy
    case 12 => Conflicts case 13 => ConflictedBy case 14 => Before    case 15 => After
    case 16 => OnFailure case _ => OnSuccess
  }

  function KindIndex(k: Kind): (j: nat)
    ensures j < 18 && KindAt(j) == k
  {
    match k
    case Requires => 0   case RequiredBy => 1   case Wants => 2       case WantedBy => 3
    case Requisite => 4  case RequisiteOf => 5  case BindsTo => 6     case BoundBy => 7
    case PartOf => 8     case ConsistsOf => 9   case Upholds => 10    case UpheldBy => 11
    case Conflicts => 12 case ConflictedBy => 13 case Before => 14    case After => 15
    case OnFailure => 16 case OnSuccess => 17
  }

  /** What the first j loops of u's turn write, from the entries present when the turn begins. */
  function FirstKindsWrites(present: set<Key>, loaded: set<Name>, u: Name, j: nat): set<Key> {
    (set key | key in present && key.owner == u && KindIndex(key.kind) < j :: Key(u, SelfKind(key.kind), key.dep)) +
    (set key | key in present && key.owner == u && KindIndex(key.kind) < j && key.dep in loaded ::
       Key(key.dep, Inverse(key.kind), u))
  }

  lemma NextKindWrites(present: set<Key>, loaded: set<Name>, u: Name, j: nat)
    requires j < 18
    ensures FirstKindsWrites(present, loaded, u, j + 1) ==
            FirstKindsWrites(present, loaded, u, j) + KindWrites(present, loaded, u, KindAt(j))
  {
    forall k: Kind
      ensures KindIndex(k) < j + 1 <==> KindIndex(k) < j || k == KindAt(j)
    {
      IndexOfAt(j);
    }
  }

  lemma IndexOfAt(j: nat)
    requires j < 18
    ensures KindIndex(KindAt(j)) == j
  {
  }

  lemma AllKindsWrites(present: set<Key>, loaded: set<Name>, u: Name)
    ensures FirstKindsWrites(present, loaded, u, 18) == TurnWrites(present, loaded, u)
  {
  }

  lemma EarlierLoopsElsewhere(d: Links, loaded: set<Name>, u: Name, j: nat, key: Key)
    requires j < 18 && Linkable(d, loaded) && u in loaded
    requires key in FirstKindsWrites(d.Keys, loaded, u, j)
    ensures key.owner in loaded && key.dep != key.owner && !(key.owner == u && key.kind == KindAt(j))
  {
    IndexOfAt(j);
    IndexOfAt(0);
  }

  /** No loop writes an entry that a later loop of the same turn iterates over. */
  lemma KindSeesTheSame(d: Links, loaded: set<Name>, u: Name, j: nat)
    requires j < 18 && Linkable(d, loaded) && u in loaded
    ensures var w := FirstKindsWrites(d.Keys, loaded, u, j);
            && Linkable(Overlay(d, loaded, w), loaded)
            && KindWrites(Overlay(d, loaded, w).Keys, loaded, u, KindAt(j)) == KindWrites(d.Keys, loaded, u, KindAt(j))
  {
    var w := FirstKindsWrites(d.Keys, loaded, u, j);
    forall key | key in w
      ensures key.owner in loaded && key.dep != key.owner && !(key.owner == u && key.kind == KindAt(j))
    {
      EarlierLoopsElsewhere(d, loaded, u, j, key);
    }
    MoreKeysSameKind(d.Keys, w, loaded, u, KindAt(j));
    assert Overlay(d, loaded, w).Keys == d.Keys + w;
  }

  lemma MoreKeysSameKind(present: set<Key>, w: set<Key>, loaded: set<Name>, u: Name, k: Kind)
    requires forall key :: key in w ==> !(key.owner == u && key.kind == k)
    ensures KindWrites(present + w, loaded, u, k) == KindWrites(present, loaded, u, k)
  {
  }

  // ---- the pass as a fold over turns

  lemma PassSnoc(d: Links, loaded: set<Name>, order: seq<Name>, u: Name)
    ensures Pass(d, loaded, order + [u]) ==
            Overlay(Pass(d, loaded, order), loaded, TurnWrites(Pass(d, loaded, order).Keys, loaded, u))
  {
    var w := Writes(d, loaded, order);
    assert (order + [u])[..|order|] == order;
    OverlayTwice(d, loaded, w, TurnWrites(d.Keys + w, loaded, u));
    assert Pass(d, loaded, order).Keys == d.Keys + w;
  }

  lemma PassLinkable(d: Links, loaded: set<Name>, order: seq<Name>)
    requires Linkable(d, loaded) && NoRepeats(order) && forall x :: x in order ==> x in loaded
    ensures Linkable(Pass(d, loaded, order), loaded)
  {
    forall key | key in Writes(d, loaded, order)
      ensures key.owner in loaded && key.dep != key.owner
    {
      WritesExact(d, loaded, order, key);
      if Precedes(order, key.dep, key.owner) { PrecedesIn(order, key.dep, key.owner); }
    }
  }
}
