/** The link pass that ends a reload: every relation entry is pointed at the loaded unit it names, and the inverse
    relation of that unit gains the entry back. Maps iterate in random order; the pass is a function of that order
    here, and what it leaves is determined exactly. */
module Linker {

  type Name = string

  datatype Kind =
    | Requires | RequiredBy | Wants | WantedBy | Requisite | RequisiteOf | BindsTo | BoundBy | PartOf | ConsistsOf
    | Upholds | UpheldBy | Conflicts | ConflictedBy | Before | After | OnFailure | OnSuccess

  /** The relation in which the other unit gains an entry. OnFailure and OnSuccess are each other's. */
  function Inverse(k: Kind): Kind {
    match k
    case Requires => RequiredBy     case RequiredBy => Requires
    case Wants => WantedBy          case WantedBy => Wants
    case Requisite => RequisiteOf   case RequisiteOf => Requisite
    case BindsTo => BoundBy         case BoundBy => BindsTo
    case PartOf => ConsistsOf       case ConsistsOf => PartOf
    case Upholds => UpheldBy        case UpheldBy => Upholds
    case Conflicts => ConflictedBy  case ConflictedBy => Conflicts
    case Before => After            case After => Before
    case OnFailure => OnSuccess     case OnSuccess => OnFailure
  }

  /** The relation in which the unit's own entry is written: Requisite entries land in Requires. */
  function SelfKind(k: Kind): Kind {
    if k == Requisite then Requires else k
  }

  /** Entry dep of relation kind in unit owner. */
  datatype Key = Key(owner: Name, kind: Kind, dep: Name)

  /** What an entry holds: nil, the list's own object for a unit, or some object not in the list. */
  datatype Ref = Nil | Unit(name: Name) | Stale

  type Links = map<Key, Ref>

  function RefOf(loaded: set<Name>, dep: Name): Ref {
    if dep in loaded then Unit(dep) else Nil
  }

  /** The entries present at the start belong to loaded units, and none names its own unit (which would block
      on its own lock). */
  ghost predicate Linkable(d: Links, loaded: set<Name>) {
    forall key :: key in d ==> key.owner in loaded && key.dep != key.owner
  }

  /** The entries written during the turn of unit u, when `present` are the entries there are. */
  function TurnWrites(present: set<Key>, loaded: set<Name>, u: Name): set<Key> {
    (set key | key in present && key.owner == u :: Key(u, SelfKind(key.kind), key.dep)) +
    (set key | key in present && key.owner == u && key.dep in loaded :: Key(key.dep, Inverse(key.kind), u))
  }

  /** All entries written when the units take their turns in the given order. */
  function Writes(d: Links, loaded: set<Name>, order: seq<Name>): set<Key> {
    if order == [] then {}
    else
      var w := Writes(d, loaded, order[..|order| - 1]);
      w + TurnWrites(d.Keys + w, loaded, order[|order| - 1])
  }

  /** Every write points an entry where its name says. */
  function Overlay(d: Links, loaded: set<Name>, w: set<Key>): Links {
    d + map key | key in w :: RefOf(loaded, key.dep)
  }

  function Pass(d: Links, loaded: set<Name>, order: seq<Name>): Links {
    Overlay(d, loaded, Writes(d, loaded, order))
  }

  ghost predicate OrderOf(order: seq<Name>, loaded: set<Name>) {
    && (forall x :: x in order <==> x in loaded)
    && NoRepeats(order)
  }

  ghost predicate NoRepeats(order: seq<Name>) {
    forall i, j :: 0 <= i < j < |order| ==> order[i] != order[j]
  }

  ghost predicate Precedes(order: seq<Name>, x: Name, y: Name) {
    exists i, j :: 0 <= i < j < |order| && order[i] == x && order[j] == y
  }

  // ---- which entries are written

  /** Declared by the owner, whose turn has come, or by the other side, whose turn has come. */
  ghost predicate Mutual(d: Links, loaded: set<Name>, order: seq<Name>, key: Key) {
    || (key.owner in order && key in d)
    || (key.dep in order && key.owner in loaded && Key(key.dep, Inverse(key.kind), key.owner) in d)
  }

  /** Exactly the entries written so far, from the declarations and the order alone. */
  ghost predicate Written(d: Links, loaded: set<Name>, order: seq<Name>, key: Key) {
    var Key(a, k, b) := key;
    match k
    case Requires =>
      || Mutual(d, loaded, order, key)
      || (a in order && Key(a, Requisite, b) in d)
      || (Precedes(order, b, a) && Key(b, RequisiteOf, a) in d)
    case Requisite =>
      && b in order && a in loaded
      && (Key(b, RequisiteOf, a) in d || (Precedes(order, a, b) && key in d))
    case _ => Mutual(d, loaded, order, key)
  }

  lemma PrecedesSnoc(order: seq<Name>, u: Name, x: Name, y: Name)
    requires u !in order
    ensures Precedes(order + [u], x, y) <==> Precedes(order, x, y) || (x in order && y == u)
  {
    var o := order + [u];
    if Precedes(o, x, y) {
      var i, j :| 0 <= i < j < |o| && o[i] == x && o[j] == y;
      if j < |order| {
        assert order[i] == x && order[j] == y;
      }
    }
    if Precedes(order, x, y) {
      var i, j :| 0 <= i < j < |order| && order[i] == x && order[j] == y;
      assert o[i] == x && o[j] == y;
    }
    if x in order && y == u {
      var i :| 0 <= i < |order| && order[i] == x;
      assert o[i] == x && o[|order|] == y;
    }
  }

  lemma PrecedesIn(order: seq<Name>, x: Name, y: Name)
    requires Precedes(order, x, y)
    ensures x in order && y in order
  {
  }

  /** An entry of u present when u's turn comes. */
  lemma TurnSees(d: Links, loaded: set<Name>, order: seq<Name>, u: Name, k: Kind, x: Name)
    requires Linkable(d, loaded) && u !in order && u in loaded
    ensures (Key(u, k, x) in d || Written(d, loaded, order, Key(u, k, x))) <==>
            (Key(u, k, x) in d || (x in order && Key(x, Inverse(k), u) in d))
  {
    if Precedes(order, u, x) { PrecedesIn(order, u, x); }
    if Precedes(order, x, u) { PrecedesIn(order, x, u); }
  }

  /** A key is written in u's turn just when it is u's own, from an entry seen, or the inverse of one. */
  lemma InTurnWrites(present: set<Key>, loaded: set<Name>, u: Name, key: Key)
    ensures key in TurnWrites(present, loaded, u) <==>
            || (key.owner == u && key.kind != Requisite && Key(u, key.kind, key.dep) in present)
            || (key.owner == u && key.kind == Requires && Key(u, Requisite, key.dep) in present)
            || (key.dep == u && key.owner in loaded && Key(u, Inverse(key.kind), key.owner) in present)
  {
    assert Inverse(Inverse(key.kind)) == key.kind;
    if key.dep == u && key.owner in loaded && Key(u, Inverse(key.kind), key.owner) in present {
      var seen := Key(u, Inverse(key.kind), key.owner);
      assert Key(seen.dep, Inverse(seen.kind), u) == key;
    }
    if key.owner == u && key.kind == Requires && Key(u, Requisite, key.dep) in present {
      assert Key(u, SelfKind(Requisite), key.dep) == key;
    }
    if key.owner == u && key.kind != Requisite && Key(u, key.kind, key.dep) in present {
      assert Key(u, SelfKind(key.kind), key.dep) == key;
    }
  }

  lemma WrittenSnoc(d: Links, loaded: set<Name>, order: seq<Name>, u: Name, key: Key)
    requires Linkable(d, loaded) && u !in order && u in loaded && key.dep != key.owner
    ensures Written(d, loaded, order + [u], key) <==>
            || Written(d, loaded, order, key)
            || (key.owner == u && key.kind != Requisite &&
                (key in d || (key.dep in order && Key(key.dep, Inverse(key.kind), u) in d)))
            || (key.owner == u && key.kind == Requires &&
                (Key(u, Requisite, key.dep) in d || (key.dep in order && Key(key.dep, RequisiteOf, u) in d)))
            || (key.dep == u && key.owner in loaded &&
                (Key(u, Inverse(key.kind), key.owner) in d || (key.owner in order && key in d)))
  {
    assert Inverse(Inverse(key.kind)) == key.kind;
    PrecedesSnoc(order, u, key.owner, key.dep);
    PrecedesSnoc(order, u, key.dep, key.owner);
  }

  lemma TurnExact(d: Links, loaded: set<Name>, order: seq<Name>, u: Name, w: set<Key>, key: Key)
    requires Linkable(d, loaded) && u !in order && u in loaded
    requires forall k: Key :: k in w <==> k.dep != k.owner && Written(d, loaded, order, k)
    ensures key in w + TurnWrites(d.Keys + w, loaded, u) <==>
            key.dep != key.owner && Written(d, loaded, order + [u], key)
  {
    hide Written, TurnWrites;
    InTurnWrites(d.Keys + w, loaded, u, key);
    if key.dep != key.owner {
      WrittenSnoc(d, loaded, order, u, key);
      TurnSees(d, loaded, order, u, key.kind, key.dep);
      TurnSees(d, loaded, order, u, Requisite, key.dep);
      TurnSees(d, loaded, order, u, Inverse(key.kind), key.owner);
      assert Inverse(Inverse(key.kind)) == key.kind;
    }
  }

  /** The set of entries written is the one described, whatever the order. */
  lemma {:induction false} WritesExact(d: Links, loaded: set<Name>, order: seq<Name>, key: Key)
    requires Linkable(d, loaded) && NoRepeats(order) && forall x :: x in order ==> x in loaded
    ensures key in Writes(d, loaded, order) <==> key.dep != key.owner && Written(d, loaded, order, key)
    decreases |order|
  {
    if order != [] {
      var before, u := order[..|order| - 1], order[|order| - 1];
      assert order == before + [u];
      forall k: Key
        ensures k in Writes(d, loaded, before) <==> k.dep != k.owner && Written(d, loaded, before, k)
      {
        WritesExact(d, loaded, before, k);
      }
      TurnExact(d, loaded, before, u, Writes(d, loaded, before), key);
    } else if Precedes(order, key.owner, key.dep) || Precedes(order, key.dep, key.owner) {
      assert false;
    }
  }

  // ---- the closed form

  ghost predicate NoRequisites(d: Links) {
    forall key :: key in d ==> key.kind != Requisite && key.kind != RequisiteOf
  }

  /** Declared on either side. */
  function ClosedKeys(d: Links, loaded: set<Name>): set<Key> {
    d.Keys + set key | key in d && key.dep in loaded :: Key(key.dep, Inverse(key.kind), key.owner)
  }

  /** Each entry declared on either side, pointing at the list's own object, or nil if the unit is not loaded. */
  function Closed(d: Links, loaded: set<Name>): Links {
    map key | key in ClosedKeys(d, loaded) :: RefOf(loaded, key.dep)
  }

  lemma InClosedKeys(d: Links, loaded: set<Name>, key: Key)
    requires Linkable(d, loaded)
    ensures key in ClosedKeys(d, loaded) <==>
            key in d || (key.owner in loaded && Key(key.dep, Inverse(key.kind), key.owner) in d)
  {
    var back := Key(key.dep, Inverse(key.kind), key.owner);
    assert Inverse(Inverse(key.kind)) == key.kind;
    if key.owner in loaded && back in d {
      assert Key(back.dep, Inverse(back.kind), back.owner) == key;
    }
  }

  /** In every order, every relation but Requires and Requisite comes out closed, Requisite declarations or not. */
  lemma PassExact(d: Links, loaded: set<Name>, order: seq<Name>, key: Key)
    requires Linkable(d, loaded) && OrderOf(order, loaded)
    requires NoRequisites(d) || (key.kind != Requires && key.kind != Requisite)
    ensures key in Pass(d, loaded, order) <==> key in ClosedKeys(d, loaded)
    ensures key in Pass(d, loaded, order) ==> Pass(d, loaded, order)[key] == RefOf(loaded, key.dep)
  {
    hide Writes, ClosedKeys;
    WritesExact(d, loaded, order, key);
    InClosedKeys(d, loaded, key);
  }

  /** r's entry s of relation k is there just if r declared it or s declared the entry `back` for r; it then points
      to the list's s, or to nothing if s is not loaded. */
  ghost predicate Completed(d: Links, loaded: set<Name>, e: Links, r: Name, k: Kind, s: Name, back: Kind) {
    && (Key(r, k, s) in e <==> Key(r, k, s) in d || (s in loaded && Key(s, back, r) in d))
    && (Key(r, k, s) in e ==> e[Key(r, k, s)] == if s in loaded then Unit(s) else Nil)
  }

  lemma CompletedBy(d: Links, loaded: set<Name>, order: seq<Name>, r: Name, k: Kind, s: Name)
    requires Linkable(d, loaded) && OrderOf(order, loaded) && r in loaded
    requires k != Requisite && (k == Requires ==> NoRequisites(d))
    ensures Completed(d, loaded, Pass(d, loaded, order), r, k, s, Inverse(k))
  {
    hide Pass, ClosedKeys;
    PassExact(d, loaded, order, Key(r, k, s));
    InClosedKeys(d, loaded, Key(r, k, s));
  }

  /** The pairs of relations, by name: whatever the order, each is completed from the other. Requires is, if nobody
      declares Requisite or RequisiteOf. */
  lemma PairsCompleted(d: Links, loaded: set<Name>, order: seq<Name>, r: Name, s: Name)
    requires Linkable(d, loaded) && OrderOf(order, loaded) && r in loaded
    ensures var e := Pass(d, loaded, order);
            && Completed(d, loaded, e, r, Wants, s, WantedBy) && Completed(d, loaded, e, r, WantedBy, s, Wants)
            && Completed(d, loaded, e, r, BindsTo, s, BoundBy) && Completed(d, loaded, e, r, BoundBy, s, BindsTo)
            && Completed(d, loaded, e, r, PartOf, s, ConsistsOf) && Completed(d, loaded, e, r, ConsistsOf, s, PartOf)
            && Completed(d, loaded, e, r, Upholds, s, UpheldBy) && Completed(d, loaded, e, r, UpheldBy, s, Upholds)
            && Completed(d, loaded, e, r, Conflicts, s, ConflictedBy)
            && Completed(d, loaded, e, r, ConflictedBy, s, Conflicts)
            && Completed(d, loaded, e, r, Before, s, After) && Completed(d, loaded, e, r, After, s, Before)
            && Completed(d, loaded, e, r, OnFailure, s, OnSuccess) && Completed(d, loaded, e, r, OnSuccess, s, OnFailure)
            && Completed(d, loaded, e, r, RequiredBy, s, Requires) && Completed(d, loaded, e, r, RequisiteOf, s, Requisite)
            && (NoRequisites(d) ==> Completed(d, loaded, e, r, Requires, s, RequiredBy))
  {
    hide Pass, Completed, Linkable, OrderOf, NoRequisites;
    CompletedBy(d, loaded, order, r, Wants, s);
    CompletedBy(d, loaded, order, r, WantedBy, s);
    CompletedBy(d, loaded, order, r, BindsTo, s);
    CompletedBy(d, loaded, order, r, BoundBy, s);
    CompletedBy(d, loaded, order, r, PartOf, s);
    CompletedBy(d, loaded, order, r, ConsistsOf, s);
    CompletedBy(d, loaded, order, r, Upholds, s);
    CompletedBy(d, loaded, order, r, UpheldBy, s);
    CompletedBy(d, loaded, order, r, Conflicts, s);
    CompletedBy(d, loaded, order, r, ConflictedBy, s);
    CompletedBy(d, loaded, order, r, Before, s);
    CompletedBy(d, loaded, order, r, After, s);
    CompletedBy(d, loaded, order, r, OnFailure, s);
    CompletedBy(d, loaded, order, r, OnSuccess, s);
    CompletedBy(d, loaded, order, r, RequiredBy, s);
    CompletedBy(d, loaded, order, r, RequisiteOf, s);
    if NoRequisites(d) {
      CompletedBy(d, loaded, order, r, Requires, s);
    }
  }

  /** Without Requisite and RequisiteOf, linking is confluent and its result is the closed form. */
  lemma PassIsClosed(d: Links, loaded: set<Name>, order: seq<Name>)
    requires Linkable(d, loaded) && OrderOf(order, loaded) && NoRequisites(d)
    ensures Pass(d, loaded, order) == Closed(d, loaded)
  {
    forall key
      ensures key in Pass(d, loaded, order) <==> key in Closed(d, loaded)
      ensures key in Pass(d, loaded, order) ==> Pass(d, loaded, order)[key] == Closed(d, loaded)[key]
    {
      PassExact(d, loaded, order, key);
    }
  }

  /** Among loaded units the two relations of a pair are inverse to each other. */
  lemma ClosedIsMutual(d: Links, loaded: set<Name>, a: Name, k: Kind, b: Name)
    requires Linkable(d, loaded) && a in loaded && b in loaded
    ensures Key(a, k, b) in Closed(d, loaded) <==> Key(b, Inverse(k), a) in Closed(d, loaded)
  {
    InClosedKeys(d, loaded, Key(a, k, b));
    InClosedKeys(d, loaded, Key(b, Inverse(k), a));
    assert Inverse(Inverse(k)) == k;
  }

  /** A second pass, in whatever order, changes nothing. */
  lemma SecondPassIdle(d: Links, loaded: set<Name>, first: seq<Name>, second: seq<Name>)
    requires Linkable(d, loaded) && OrderOf(first, loaded) && OrderOf(second, loaded) && NoRequisites(d)
    ensures Pass(Pass(d, loaded, first), loaded, second) == Pass(d, loaded, first)
  {
    PassIsClosed(d, loaded, first);
    var e := Closed(d, loaded);
    forall key | key in e
      ensures key.owner in loaded && key.dep != key.owner && key.kind != Requisite && key.kind != RequisiteOf
    {
      InClosedKeys(d, loaded, key);
    }
    PassIsClosed(e, loaded, second);
    forall key
      ensures key in ClosedKeys(e, loaded) <==> key in e
    {
      InClosedKeys(e, loaded, key);
      InClosedKeys(d, loaded, key);
      InClosedKeys(d, loaded, Key(key.dep, Inverse(key.kind), key.owner));
      assert Inverse(Inverse(key.kind)) == key.kind;
    }
  }

  // ---- with Requisite: exactly when the order does not matter

  /** As the unit file loader leaves them: every entry nil. */
  ghost predicate Fresh(d: Links) {
    forall key :: key in d ==> d[key] == Nil
  }

  /** A Requisite between loaded units is declared from both sides, or only as RequisiteOf beside a Requires. */
  ghost predicate Settles(d: Links, loaded: set<Name>) {
    forall a, b :: a in loaded && b in loaded ==>
      && (Key(a, Requisite, b) in d ==> Key(b, RequisiteOf, a) in d)
      && (Key(b, RequisiteOf, a) in d ==>
           Key(a, Requisite, b) in d || Key(a, Requires, b) in d || Key(b, RequiredBy, a) in d)
  }

  ghost predicate Confluent(d: Links, loaded: set<Name>) {
    forall o1, o2 :: OrderOf(o1, loaded) && OrderOf(o2, loaded) ==> Pass(d, loaded, o1) == Pass(d, loaded, o2)
  }

  lemma SettledWrites(d: Links, loaded: set<Name>, o1: seq<Name>, o2: seq<Name>, key: Key)
    requires Linkable(d, loaded) && Settles(d, loaded) && OrderOf(o1, loaded) && OrderOf(o2, loaded)
    requires key in Writes(d, loaded, o1)
    ensures key in Writes(d, loaded, o2)
  {
    hide Writes, Precedes;
    WritesExact(d, loaded, o1, key);
    WritesExact(d, loaded, o2, key);
    var Key(a, k, b) := key;
    if Precedes(o1, b, a) { PrecedesIn(o1, b, a); }
    if Precedes(o1, a, b) { PrecedesIn(o1, a, b); }
    assert Settles(d, loaded) && a in loaded && b in loaded && k == Requisite && Key(a, Requisite, b) in d
      ==> Key(b, RequisiteOf, a) in d;
    assert a in loaded && b in loaded && Key(b, RequisiteOf, a) in d ==>
      Key(a, Requisite, b) in d || Key(a, Requires, b) in d || Key(b, RequiredBy, a) in d;
  }

  /** Some order of a finite set of units. */
  lemma SomeOrder(loaded: set<Name>) returns (order: seq<Name>)
    ensures OrderOf(order, loaded)
  {
    if loaded == {} {
      order := [];
    } else {
      var x :| x in loaded;
      var rest := SomeOrder(loaded - {x});
      order := [x] + rest;
    }
  }

  /** Two orders that differ only in which of a and b comes first. */
  lemma TwoOrders(loaded: set<Name>, a: Name, b: Name) returns (ab: seq<Name>, ba: seq<Name>)
    requires a in loaded && b in loaded && a != b
    ensures OrderOf(ab, loaded) && OrderOf(ba, loaded)
    ensures Precedes(ab, a, b) && !Precedes(ab, b, a) && Precedes(ba, b, a) && !Precedes(ba, a, b)
  {
    var rest := SomeOrder(loaded - {a, b});
    ab, ba := [a, b] + rest, [b, a] + rest;
    assert ab[0] == a && ab[1] == b && ba[0] == b && ba[1] == a;
    assert forall i :: 2 <= i < |ab| ==> ab[i] == rest[i - 2] && ba[i] == rest[i - 2];
    assert forall i :: 2 <= i < |ab| ==> ab[i] in loaded - {a, b};
  }

  /** Linking is confluent for fresh declarations exactly when they settle: no hypothesis on which relations
      are used. (With Requisite in play the entries that can differ are those of Requires and Requisite.) */
  lemma ConfluentIff(d: Links, loaded: set<Name>)
    requires Linkable(d, loaded) && Fresh(d)
    ensures Confluent(d, loaded) <==> Settles(d, loaded)
  {
    if Settles(d, loaded) {
      forall o1, o2 | OrderOf(o1, loaded) && OrderOf(o2, loaded)
        ensures Pass(d, loaded, o1) == Pass(d, loaded, o2)
      {
        forall key
          ensures key in Writes(d, loaded, o1) <==> key in Writes(d, loaded, o2)
        {
          if key in Writes(d, loaded, o1) { SettledWrites(d, loaded, o1, o2, key); }
          if key in Writes(d, loaded, o2) { SettledWrites(d, loaded, o2, o1, key); }
        }
        assert Writes(d, loaded, o1) == Writes(d, loaded, o2);
      }
    } else {
      var a, b :| a in loaded && b in loaded && !(
        && (Key(a, Requisite, b) in d ==> Key(b, RequisiteOf, a) in d)
        && (Key(b, RequisiteOf, a) in d ==>
             Key(a, Requisite, b) in d || Key(a, Requires, b) in d || Key(b, RequiredBy, a) in d));
      Unsettled(d, loaded, a, b);
    }
  }

  lemma Unsettled(d: Links, loaded: set<Name>, a: Name, b: Name)
    requires Linkable(d, loaded) && Fresh(d) && a in loaded && b in loaded
    requires
      || (Key(a, Requisite, b) in d && Key(b, RequisiteOf, a) !in d)
      || (Key(b, RequisiteOf, a) in d && Key(a, Requisite, b) !in d && Key(a, Requires, b) !in d &&
          Key(b, RequiredBy, a) !in d)
    ensures !Confluent(d, loaded)
  {
    hide Writes, ClosedKeys;
    var ab, ba := TwoOrders(loaded, a, b);
    var key := if Key(a, Requisite, b) in d then Key(a, Requisite, b) else Key(a, Requires, b);
    WritesExact(d, loaded, ab, key);
    WritesExact(d, loaded, ba, key);
    assert key in Writes(d, loaded, ab) <==> key !in Writes(d, loaded, ba);
    assert Pass(d, loaded, ab) != Pass(d, loaded, ba) by {
      if key in d {
        assert key in Pass(d, loaded, ab) && key in Pass(d, loaded, ba);
        assert Pass(d, loaded, ab)[key] != Pass(d, loaded, ba)[key];
      } else {
        assert key in Pass(d, loaded, ab) <==> key !in Pass(d, loaded, ba);
      }
    }
  }
}
