/**
 The JSON shape check over an arbitrary finite object graph, in which containers may be shared and may
 refer back to themselves.
 */
module JsonShape {

  const MAX_JSON_NESTING: nat := 100

  /** A runtime value; containers are named by their identity. */
  datatype Value =
    | Null
    | Boolean
    | Integer
    | Text
    | Float(finite: bool)
    | Container(id: nat)
    | Unsupported

  /** An item of a list, or an item of a dict with the type of its key. */
  datatype Entry = Entry(keyIsString: bool, value: Value)

  datatype Node = ListNode(items: seq<Value>) | DictNode(entries: seq<Entry>)

  type Graph = map<nat, Node>

  datatype ShapeError = NotFinite | TooDeep | Cyclic | KeyNotString | UnsupportedType

  datatype Verdict = Accepted | Rejected(error: ShapeError)

  function Entries(node: Node): seq<Entry> {
    match node
    case ListNode(items) => seq(|items|, i requires 0 <= i < |items| => Entry(true, items[i]))
    case DictNode(entries) => entries
  }

  /** Every container that occurs exists. */
  ghost predicate Rooted(g: Graph, v: Value) {
    v.Container? ==> v.id in g
  }

  ghost predicate WellFormed(g: Graph) {
    forall id :: id in g ==> forall e :: e in Entries(g[id]) ==> Rooted(g, e.value)
  }

  // ---------------------------------------------------------------- what the check computes

  function Check(g: Graph, v: Value, active: set<nat>, depth: nat): Verdict
    requires WellFormed(g) && Rooted(g, v) && depth <= MAX_JSON_NESTING
    decreases MAX_JSON_NESTING - depth, 0, 0
  {
    match v
    case Float(finite) => if finite then Accepted else Rejected(NotFinite)
    case Unsupported => Rejected(UnsupportedType)
    case Container(id) =>
      if depth >= MAX_JSON_NESTING then Rejected(TooDeep)
      else if id in active then Rejected(Cyclic)
      else CheckEntries(g, Entries(g[id]), active + {id}, depth + 1)
    case _ => Accepted
  }

  function CheckEntries(g: Graph, entries: seq<Entry>, active: set<nat>, depth: nat): Verdict
    requires WellFormed(g) && depth <= MAX_JSON_NESTING
    requires forall e :: e in entries ==> Rooted(g, e.value)
    decreases MAX_JSON_NESTING - depth, 1, |entries|
  {
    if entries == [] then Accepted
    else if !entries[0].keyIsString then Rejected(KeyNotString)
    else
      match Check(g, entries[0].value, active, depth)
      case Accepted => CheckEntries(g, entries[1..], active, depth)
      case Rejected(error) => Rejected(error)
  }

  /** The recursion of _validate_json_shape, with the set of containers it is inside of. */
  class ShapeValidator {
    var active: set<nat>

    constructor ()
      ensures active == {}
    {
      active := {};
    }

    /** Whatever the verdict, the active set is restored. */
    method Validate(g: Graph, v: Value, depth: nat) returns (verdict: Verdict)
      requires WellFormed(g) && Rooted(g, v) && depth <= MAX_JSON_NESTING
      modifies this
      ensures active == old(active)
      ensures verdict == Check(g, v, old(active), depth)
      decreases MAX_JSON_NESTING - depth
    {
      match v
      case Float(finite) =>
        if !finite {
          return Rejected(NotFinite);
        }
        return Accepted;
      case Unsupported => return Rejected(UnsupportedType);
      case Container(id) =>
        if depth >= MAX_JSON_NESTING {
          return Rejected(TooDeep);
        }
        if id in active {
          return Rejected(Cyclic);
        }
        active := active + {id};
        var entries := Entries(g[id]);
        var i := 0;
        verdict := Accepted;
        while i < |entries| && verdict == Accepted
          invariant 0 <= i <= |entries|
          invariant active == old(active) + {id}
          invariant CheckEntries(g, entries, active, depth + 1)
                    == if verdict == Accepted then CheckEntries(g, entries[i..], active, depth + 1) else verdict
        {
          if !entries[i].keyIsString {
            verdict := Rejected(KeyNotString);
          } else {
            verdict := Validate(g, entries[i].value, depth + 1);
          }
          assert entries[i..][1..] == entries[i + 1..];
          i := i + 1;
        }
        active := active - {id};
      case _ => return Accepted;
    }
  }

  // ---------------------------------------------------------------- what it decides

  /** A value that a container holds: an item of a list, or a value of a dict. */
  ghost predicate Holds(node: Node, v: Value) {
    match node
    case ListNode(items) => v in items
    case DictNode(entries) => exists e :: e in entries && e.value == v
  }

  ghost predicate StringKeys(node: Node) {
    node.DictNode? ==> forall e :: e in node.entries ==> e.keyIsString
  }

  /** The checked entries are the items of a list, which have no keys, or those of a dict. */
  lemma EntriesHold(node: Node)
    ensures forall v :: Holds(node, v) <==> exists e :: e in Entries(node) && e.value == v
    ensures StringKeys(node) <==> forall e :: e in Entries(node) ==> e.keyIsString
  {
    if node.ListNode? {
      forall v | v in node.items
        ensures Entry(true, v) in Entries(node)
      {
        var i :| 0 <= i < |node.items| && node.items[i] == v;
        assert Entries(node)[i] == Entry(true, v);
      }
    }
  }

  /** The unfolding of `v` is legal and nests at most `levels` containers. */
  ghost predicate Fits(g: Graph, v: Value, levels: nat)
    requires WellFormed(g) && Rooted(g, v)
    decreases levels
  {
    match v
    case Float(finite) => finite
    case Unsupported => false
    case Container(id) =>
      EntriesHold(g[id]);
      levels > 0 && StringKeys(g[id]) && forall item :: Holds(g[id], item) ==> Fits(g, item, levels - 1)
    case _ => true
  }

  /** The same, in terms of the checked entries. */
  lemma {:induction false} FitsByEntries(g: Graph, id: nat, levels: nat)
    requires WellFormed(g) && id in g
    ensures Fits(g, Container(id), levels)
            <==> levels > 0 && forall e :: e in Entries(g[id]) ==> e.keyIsString && Fits(g, e.value, levels - 1)
  {
    EntriesHold(g[id]);
    forall e | e in Entries(g[id])
      ensures Holds(g[id], e.value)
    {
    }
  }

  /** A path from container to container. */
  ghost predicate Chain(g: Graph, path: seq<nat>) {
    && (forall i :: 0 <= i < |path| ==> path[i] in g)
    && (forall i :: 0 <= i < |path| - 1 ==> Links(g, path[i], path[i + 1]))
  }

  ghost predicate Links(g: Graph, from: nat, to: nat) {
    from in g && Holds(g[from], Container(to))
  }

  lemma EntryLinks(g: Graph, from: nat, e: Entry)
    requires from in g && e in Entries(g[from]) && e.value.Container?
    ensures Links(g, from, e.value.id)
  {
    EntriesHold(g[from]);
  }

  lemma {:induction false} FitsAlong(g: Graph, path: seq<nat>, levels: nat)
    requires WellFormed(g) && Chain(g, path) && path != [] && Fits(g, Container(path[0]), levels)
    ensures |path| <= levels
    ensures Fits(g, Container(path[|path| - 1]), levels - |path| + 1)
    decreases path
  {
    if |path| > 1 {
      assert Links(g, path[0], path[1]);
      assert Chain(g, path[1..]) by {
        forall i | 0 <= i < |path| - 2
          ensures Links(g, path[1..][i], path[1..][i + 1])
        {
          assert path[1..][i] == path[i + 1] && path[1..][i + 1] == path[i + 2];
        }
      }
      FitsAlong(g, path[1..], levels - 1);
    }
  }

  /** Nothing on a cycle has a finite unfolding. */
  lemma {:induction false} CyclesNeverFit(g: Graph, cycle: seq<nat>, levels: nat)
    requires WellFormed(g) && Chain(g, cycle) && |cycle| > 1 && cycle[0] == cycle[|cycle| - 1]
    ensures !Fits(g, Container(cycle[0]), levels)
    decreases levels
  {
    if Fits(g, Container(cycle[0]), levels) {
      FitsAlong(g, cycle, levels);
      CyclesNeverFit(g, cycle, levels - |cycle| + 1);
    }
  }

  lemma {:induction false} AcceptedFits(g: Graph, v: Value, active: set<nat>, depth: nat)
    requires WellFormed(g) && Rooted(g, v) && depth <= MAX_JSON_NESTING
    requires Check(g, v, active, depth) == Accepted
    ensures Fits(g, v, MAX_JSON_NESTING - depth)
    decreases MAX_JSON_NESTING - depth, 0, 0
  {
    if v.Container? {
      AcceptedEntriesFit(g, Entries(g[v.id]), active + {v.id}, depth + 1);
      FitsByEntries(g, v.id, MAX_JSON_NESTING - depth);
    }
  }

  lemma {:induction false} AcceptedEntriesFit(g: Graph, entries: seq<Entry>, active: set<nat>, depth: nat)
    requires WellFormed(g) && depth <= MAX_JSON_NESTING
    requires forall e :: e in entries ==> Rooted(g, e.value)
    requires CheckEntries(g, entries, active, depth) == Accepted
    ensures forall e :: e in entries ==> e.keyIsString && Fits(g, e.value, MAX_JSON_NESTING - depth)
    decreases MAX_JSON_NESTING - depth, 1, |entries|
  {
    if entries != [] {
      AcceptedFits(g, entries[0].value, active, depth);
      AcceptedEntriesFit(g, entries[1..], active, depth);
    }
  }

  /** The containers being visited form a path to the value being checked. */
  ghost predicate Inside(g: Graph, path: seq<nat>, active: set<nat>, v: Value) {
    && Chain(g, path)
    && (forall id :: id in active <==> id in path)
    && (v.Container? && path != [] ==> Links(g, path[|path| - 1], v.id))
  }

  lemma {:induction false} FittingIsAccepted(g: Graph, path: seq<nat>, v: Value, active: set<nat>, depth: nat)
    requires WellFormed(g) && Rooted(g, v) && depth <= MAX_JSON_NESTING
    requires Inside(g, path, active, v) && Fits(g, v, MAX_JSON_NESTING - depth)
    ensures Check(g, v, active, depth) == Accepted
    decreases MAX_JSON_NESTING - depth, 0, 0
  {
    if v.Container? {
      var longer := path + [v.id];
      assert Chain(g, longer) by {
        assert forall i :: 0 <= i < |path| - 1 ==> Links(g, longer[i], longer[i + 1]);
      }
      if v.id in active {
        RevisitIsCycle(g, path, v.id, MAX_JSON_NESTING - depth);
        assert false;
      }
      forall e | e in Entries(g[v.id])
        ensures Inside(g, longer, active + {v.id}, e.value)
      {
        assert longer[|longer| - 1] == v.id;
        if e.value.Container? {
          EntryLinks(g, v.id, e);
        }
      }
      FitsByEntries(g, v.id, MAX_JSON_NESTING - depth);
      FittingEntriesAccepted(g, longer, Entries(g[v.id]), active + {v.id}, depth + 1);
    }
  }

  lemma {:induction false} RevisitIsCycle(g: Graph, path: seq<nat>, id: nat, levels: nat)
    requires WellFormed(g) && id in g && Chain(g, path + [id]) && id in path
    ensures !Fits(g, Container(id), levels)
  {
    var i :| 0 <= i < |path| && path[i] == id;
    var longer := path + [id];
    var cycle := longer[i..];
    assert Chain(g, cycle) by {
      forall k | 0 <= k < |cycle| - 1
        ensures Links(g, cycle[k], cycle[k + 1])
      {
        assert cycle[k] == longer[i + k] && cycle[k + 1] == longer[i + k + 1];
      }
    }
    CyclesNeverFit(g, cycle, levels);
  }

  lemma {:induction false} FittingEntriesAccepted(
    g: Graph, path: seq<nat>, entries: seq<Entry>, active: set<nat>, depth: nat)
    requires WellFormed(g) && depth <= MAX_JSON_NESTING
    requires forall e :: e in entries ==>
               Rooted(g, e.value) && Inside(g, path, active, e.value)
               && e.keyIsString && Fits(g, e.value, MAX_JSON_NESTING - depth)
    ensures CheckEntries(g, entries, active, depth) == Accepted
    decreases MAX_JSON_NESTING - depth, 1, |entries|
  {
    if entries != [] {
      assert entries[0] in entries;
      FittingIsAccepted(g, path, entries[0].value, active, depth);
      FittingEntriesAccepted(g, path, entries[1..], active, depth);
    }
  }

  /**
   The check accepts exactly the values whose unfolding is legal throughout and nests at most 100
   containers; being shared makes no difference.
   */
  lemma {:induction false} AcceptsExactlyShallowTrees(g: Graph, v: Value)
    requires WellFormed(g) && Rooted(g, v)
    ensures Check(g, v, {}, 0) == Accepted <==> Fits(g, v, 100)
  {
    if Check(g, v, {}, 0) == Accepted {
      AcceptedFits(g, v, {}, 0);
    }
    if Fits(g, v, MAX_JSON_NESTING) {
      FittingIsAccepted(g, [], v, {}, 0);
    }
  }

  /** Every value from which a cycle can be reached is rejected. */
  lemma {:induction false} ReachableCycleIsRejected(g: Graph, path: seq<nat>, cycle: seq<nat>)
    requires WellFormed(g) && Chain(g, path) && path != []
    requires Chain(g, cycle) && |cycle| > 1 && cycle[0] == cycle[|cycle| - 1] == path[|path| - 1]
    ensures Check(g, Container(path[0]), {}, 0) != Accepted
  {
    AcceptsExactlyShallowTrees(g, Container(path[0]));
    if Fits(g, Container(path[0]), MAX_JSON_NESTING) {
      FitsAlong(g, path, MAX_JSON_NESTING);
      CyclesNeverFit(g, cycle, MAX_JSON_NESTING - |path| + 1);
    }
  }

  // ---------------------------------------------------------------- what its errors mean

  /** A path that comes back to a container it has passed. */
  ghost predicate ComesBack(g: Graph, path: seq<nat>) {
    && Chain(g, path) && |path| > 1
    && path[|path| - 1] in path[..|path| - 1]
  }

  /** What a verdict says about the graph around the path that led to it. */
  ghost predicate Explained(g: Graph, path: seq<nat>, depth: nat, verdict: Verdict) {
    && (verdict == Rejected(Cyclic) ==>
          exists more :: path <= more && ComesBack(g, more) && |more| <= MAX_JSON_NESTING - depth + |path|)
    && (verdict == Rejected(TooDeep) ==>
          exists more :: path <= more && Chain(g, more) && |more| > MAX_JSON_NESTING - depth + |path|)
  }

  lemma {:induction false} VerdictExplained(g: Graph, path: seq<nat>, v: Value, active: set<nat>, depth: nat)
    requires WellFormed(g) && Rooted(g, v) && depth <= MAX_JSON_NESTING
    requires Inside(g, path, active, v)
    ensures Explained(g, path, depth, Check(g, v, active, depth))
    decreases MAX_JSON_NESTING - depth, 0, 0
  {
    if v.Container? {
      var longer := path + [v.id];
      assert Chain(g, longer) by {
        assert forall i :: 0 <= i < |path| - 1 ==> Links(g, longer[i], longer[i + 1]);
      }
      if depth >= MAX_JSON_NESTING {
        assert path <= longer;
      } else if v.id in active {
        assert longer[..|longer| - 1] == path;
        assert ComesBack(g, longer);
      } else {
        forall e | e in Entries(g[v.id])
          ensures Inside(g, longer, active + {v.id}, e.value)
        {
          assert longer[|longer| - 1] == v.id;
          if e.value.Container? {
            EntryLinks(g, v.id, e);
          }
        }
        EntriesExplained(g, longer, Entries(g[v.id]), active + {v.id}, depth + 1);
        ExplainedEarlier(g, path, v.id, depth, Check(g, v, active, depth));
      }
    }
  }

  lemma ExplainedEarlier(g: Graph, path: seq<nat>, id: nat, depth: nat, verdict: Verdict)
    requires Explained(g, path + [id], depth + 1, verdict)
    ensures Explained(g, path, depth, verdict)
  {
    if verdict == Rejected(Cyclic) {
      var more :| path + [id] <= more && ComesBack(g, more)
                  && |more| <= MAX_JSON_NESTING - (depth + 1) + |path + [id]|;
      assert path <= more;
    }
    if verdict == Rejected(TooDeep) {
      var more :| path + [id] <= more && Chain(g, more) && |more| > MAX_JSON_NESTING - (depth + 1) + |path + [id]|;
      assert path <= more;
    }
  }

  lemma {:induction false} EntriesExplained(
    g: Graph, path: seq<nat>, entries: seq<Entry>, active: set<nat>, depth: nat)
    requires WellFormed(g) && depth <= MAX_JSON_NESTING
    requires forall e :: e in entries ==> Rooted(g, e.value) && Inside(g, path, active, e.value)
    ensures Explained(g, path, depth, CheckEntries(g, entries, active, depth))
    decreases MAX_JSON_NESTING - depth, 1, |entries|
  {
    if entries != [] && entries[0].keyIsString {
      assert entries[0] in entries;
      VerdictExplained(g, path, entries[0].value, active, depth);
      EntriesExplained(g, path, entries[1..], active, depth);
    }
  }

  ghost predicate StartsAt(path: seq<nat>, v: Value) {
    path != [] && v == Container(path[0])
  }

  /**
   "Reference cycle" is reported only when a path from the checked value does come back before it is too
   long, "nesting" only when a path from it visits over 100 containers.
   */
  lemma {:induction false} ErrorsAreTrue(g: Graph, v: Value)
    requires WellFormed(g) && Rooted(g, v)
    ensures Check(g, v, {}, 0) == Rejected(Cyclic) ==>
              exists path :: StartsAt(path, v) && ComesBack(g, path) && |path| <= 100
    ensures Check(g, v, {}, 0) == Rejected(TooDeep) ==>
              exists path :: StartsAt(path, v) && Chain(g, path) && |path| > 100
  {
    if v.Container? {
      forall e | e in Entries(g[v.id])
        ensures Inside(g, [v.id], {v.id}, e.value)
      {
        if e.value.Container? {
          EntryLinks(g, v.id, e);
        }
      }
      EntriesExplained(g, [v.id], Entries(g[v.id]), {v.id}, 1);
      assert {} + {v.id} == {v.id};
      hide Check, CheckEntries;
      forall more | [v.id] <= more
        ensures StartsAt(more, v)
      {
        assert more[0] == v.id;
      }
    }
  }

  /** What each of the other errors says of the value it is raised for. */
  ghost predicate Faulty(g: Graph, v: Value, error: ShapeError)
    requires Rooted(g, v)
  {
    match error
    case NotFinite => v == Float(false)
    case UnsupportedType => v == Unsupported
    case KeyNotString => v.Container? && !StringKeys(g[v.id])
    case _ => false
  }

  /** Such a value lies within `v`, below `levels` containers at most. */
  ghost predicate HasFault(g: Graph, v: Value, error: ShapeError, levels: nat)
    requires WellFormed(g) && Rooted(g, v)
    decreases levels
  {
    || Faulty(g, v, error)
    || (levels > 0 && v.Container? &&
        (EntriesHold(g[v.id]); exists item :: Holds(g[v.id], item) && HasFault(g, item, error, levels - 1)))
  }

  predicate IsFault(verdict: Verdict) {
    verdict == Rejected(NotFinite) || verdict == Rejected(UnsupportedType) || verdict == Rejected(KeyNotString)
  }

  lemma {:induction false} FaultFound(g: Graph, v: Value, active: set<nat>, depth: nat)
    requires WellFormed(g) && Rooted(g, v) && depth <= MAX_JSON_NESTING && IsFault(Check(g, v, active, depth))
    ensures HasFault(g, v, Check(g, v, active, depth).error, MAX_JSON_NESTING - depth)
    decreases MAX_JSON_NESTING - depth, 0, 0
  {
    if v.Container? {
      var node, error, below := g[v.id], Check(g, v, active, depth).error, MAX_JSON_NESTING - (depth + 1);
      EntriesHold(node);
      FaultInEntries(g, Entries(node), active + {v.id}, depth + 1);
      if e :| e in Entries(node) && HasFault(g, e.value, error, below) {
        assert Holds(node, e.value);
      }
    }
  }

  lemma {:induction false} FaultInEntries(g: Graph, entries: seq<Entry>, active: set<nat>, depth: nat)
    requires WellFormed(g) && depth <= MAX_JSON_NESTING && forall e :: e in entries ==> Rooted(g, e.value)
    requires IsFault(CheckEntries(g, entries, active, depth))
    ensures var error := CheckEntries(g, entries, active, depth).error;
            || (error == KeyNotString && exists e :: e in entries && !e.keyIsString)
            || exists e :: e in entries && HasFault(g, e.value, error, MAX_JSON_NESTING - depth)
    decreases MAX_JSON_NESTING - depth, 1, |entries|
  {
    assert entries[0] in entries;
    if entries[0].keyIsString {
      if Check(g, entries[0].value, active, depth) == Accepted {
        FaultInEntries(g, entries[1..], active, depth);
      } else {
        FaultFound(g, entries[0].value, active, depth);
      }
    }
  }

  /** Every other error names a float that is not finite, a key, or a type that does occur in the value. */
  lemma {:induction false} FaultsAreTrue(g: Graph, v: Value)
    requires WellFormed(g) && Rooted(g, v)
    ensures var verdict := Check(g, v, {}, 0);
            || verdict == Accepted || verdict == Rejected(Cyclic) || verdict == Rejected(TooDeep)
            || HasFault(g, v, verdict.error, 100)
  {
    if IsFault(Check(g, v, {}, 0)) {
      FaultFound(g, v, {}, 0);
    }
  }
}
