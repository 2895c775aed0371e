/** `normalize_json_value`: strict JSON copies of values in an aliased, possibly cyclic heap. */
module JsonHeap {
  import opened Wrappers
  import opened CanonicalJson

  /** A finite float is known by its `repr`. */
  datatype PyFloat = Finite(repr: FloatText) | NotFinite

  datatype PyKey = StrKey(s: string) | OtherKey

  datatype PyEntry = PyEntry(key: PyKey, item: PyValue)

  datatype PyValue =
    | PyNone
    | PyBool(b: bool)
    | PyInt(n: int)
    | PyStr(s: string)
    | PyFloatValue(f: PyFloat)
    | Ref(cell: Cell)
    | Foreign(typeName: string)

  datatype Content = ListOf(items: seq<PyValue>) | DictOf(entries: seq<PyEntry>)

  function ItemsOf(content: Content): (items: seq<PyValue>)
    ensures content.ListOf? ==> items == content.items
    ensures content.DictOf? ==> |items| == |content.entries|
    ensures content.DictOf? ==> forall i :: 0 <= i < |items| ==> items[i] == content.entries[i].item
  {
    match content
    case ListOf(items) => items
    case DictOf(entries) => seq(|entries|, i requires 0 <= i < |entries| => entries[i].item)
  }

  /** One list or dict object; its identity is its `id()`. It may come to hold any value, itself included. */
  class Cell {
    var content: Content

    constructor (content: Content)
      ensures this.content == content
    {
      this.content := content;
    }

    /** The values held, in iteration order. */
    function Items(): seq<PyValue>
      reads this
    {
      ItemsOf(content)
    }

    predicate KeysAreStrings()
      reads this
    {
      content.DictOf? ==> forall e <- content.entries :: e.key.StrKey?
    }
  }

  /** The set of containers being walked, shared by every call of one walk. */
  class ActiveSet {
    var ids: set<Cell>

    constructor ()
      ensures ids == {}
    {
      ids := {};
    }
  }

  datatype JsonError = NonFiniteNumber | Cycle | KeyNotString | UnsupportedType

  predicate IsBadLeaf(v: PyValue, why: JsonError) {
    (v == PyFloatValue(NotFinite) && why == NonFiniteNumber) || (v.Foreign? && why == UnsupportedType)
  }

  ghost predicate Within(v: PyValue, world: set<Cell>) {
    v.Ref? ==> v.cell in world
  }

  /** Every container that a container of `world` holds is in `world`. */
  ghost predicate Closed(world: set<Cell>)
    reads world
  {
    forall c <- world :: forall v <- c.Items() :: Within(v, world)
  }

  /** Followed to its leaves, `v` is the JSON value `t`: what values that are equal have in common. */
  ghost predicate Unfolds(world: set<Cell>, v: PyValue, t: Json)
    reads world
    decreases t
  {
    match t
    case Null => v == PyNone
    case Bool(b) => v == PyBool(b)
    case Int(n) => v == PyInt(n)
    case Float(repr) => v == PyFloatValue(Finite(repr))
    case Str(s) => v == PyStr(s)
    case List(items) =>
      && v.Ref? && v.cell in world && v.cell.content.ListOf?
      && |v.cell.content.items| == |items|
      && forall i :: 0 <= i < |items| ==> Unfolds(world, v.cell.content.items[i], items[i])
    case Obj(members) =>
      && v.Ref? && v.cell in world && v.cell.content.DictOf?
      && |v.cell.content.entries| == |members|
      && forall i :: 0 <= i < |members| ==>
           && v.cell.content.entries[i].key == StrKey(members[i].key)
           && Unfolds(world, v.cell.content.entries[i].item, members[i].value)
  }

  /** The values that a JSON value holds. */
  function Parts(t: Json): (parts: seq<Json>)
    ensures forall part <- parts :: part < t
  {
    match t
    case List(items) => items
    case Obj(members) => ValuesOf(members)
    case _ => []
  }

  function ValuesOf(members: seq<Member>): (values: seq<Json>)
    ensures |values| == |members| && forall i :: 0 <= i < |values| ==> values[i] == members[i].value
  {
    seq(|members|, i requires 0 <= i < |members| => members[i].value)
  }

  lemma PartsUnfold(world: set<Cell>, v: PyValue, t: Json)
    requires Unfolds(world, v, t) && v.Ref?
    ensures |Parts(t)| == |v.cell.Items()|
    ensures forall i :: 0 <= i < |Parts(t)| ==> Unfolds(world, v.cell.Items()[i], Parts(t)[i])
  {
  }

  /** Each container of the path holds the next. */
  ghost predicate IsPath(world: set<Cell>, path: seq<Cell>)
    reads world
  {
    && (forall c <- path :: c in world)
    && forall i :: 0 < i < |path| ==> Ref(path[i]) in path[i - 1].Items()
  }

  /** A container with a key that is no string, or a leaf that is not strict JSON. */
  ghost predicate HoldsBad(c: Cell, why: JsonError)
    reads c
  {
    (!c.KeysAreStrings() && why == KeyNotString) || exists v <- c.Items() :: IsBadLeaf(v, why)
  }

  /** Why `v`, reached along `above`, cannot be copied: it is a bad leaf, or a path down from it ends at a
      container that holds something bad, or at one that is already on the path. */
  ghost predicate Obstacle(world: set<Cell>, above: seq<Cell>, v: PyValue, path: seq<Cell>, why: JsonError)
    reads world
  {
    && IsPath(world, above + path)
    && if path == [] then IsBadLeaf(v, why)
       else
         && v == Ref(path[0])
         && if why == Cycle then path[|path| - 1] in (above + path)[..|above + path| - 1]
            else HoldsBad(path[|path| - 1], why)
  }

  lemma {:induction false} UnfoldingUnique(world: set<Cell>, v: PyValue, t: Json, t': Json)
    requires Unfolds(world, v, t) && Unfolds(world, v, t')
    ensures t == t'
    decreases t
  {
    if v.Ref? {
      PartsUnfold(world, v, t);
      PartsUnfold(world, v, t');
      forall i | 0 <= i < |Parts(t)| ensures Parts(t)[i] == Parts(t')[i] {
        UnfoldingUnique(world, v.cell.Items()[i], Parts(t)[i], Parts(t')[i]);
      }
      SameParts(world, v, t, t');
    }
  }

  lemma SameParts(world: set<Cell>, v: PyValue, t: Json, t': Json)
    requires Unfolds(world, v, t) && Unfolds(world, v, t') && v.Ref? && Parts(t) == Parts(t')
    ensures t == t'
  {
    if t.Obj? {
      forall i | 0 <= i < |t.members| ensures t.members[i] == t'.members[i] {
        assert t.members[i].value == Parts(t)[i] == Parts(t')[i] == t'.members[i].value;
      }
      assert t.members == t'.members;
    }
  }

  /** The value of a container the path goes through, and of the next one, which is inside it. */
  lemma SubtreeOf(world: set<Cell>, c: Cell, t: Json, d: Cell) returns (s: Json)
    requires Unfolds(world, Ref(c), t) && Ref(d) in c.Items()
    ensures Unfolds(world, Ref(d), s) && s < t
  {
    PartsUnfold(world, Ref(c), t);
    var i :| 0 <= i < |c.Items()| && c.Items()[i] == Ref(d);
    s := Parts(t)[i];
  }

  lemma {:induction false} Descend(world: set<Cell>, path: seq<Cell>, i: nat, j: nat, t: Json) returns (s: Json)
    requires IsPath(world, path) && i < j < |path| && Unfolds(world, Ref(path[i]), t)
    ensures Unfolds(world, Ref(path[j]), s) && s < t
  {
    var above := t;
    if i < j - 1 { above := Descend(world, path, i, j - 1, t); }
    s := SubtreeOf(world, path[j - 1], above, path[j]);
  }

  lemma BadHasNoTree(world: set<Cell>, c: Cell, why: JsonError, t: Json)
    requires HoldsBad(c, why)
    ensures !Unfolds(world, Ref(c), t)
  {
    if Unfolds(world, Ref(c), t) { PartsUnfold(world, Ref(c), t); }
  }

  /** A container that can be reached from itself unfolds to nothing finite. */
  lemma LoopHasNoTree(world: set<Cell>, path: seq<Cell>, i: nat, j: nat, t: Json)
    requires IsPath(world, path) && i < j < |path| && path[i] == path[j]
    ensures !Unfolds(world, Ref(path[i]), t)
  {
    var v := Ref(path[i]);
    if Unfolds(world, v, t) {
      var s := Descend(world, path, i, j, t);
      UnfoldingUnique(world, v, t, s);
    }
  }

  /** Somewhere on the path there is a container that is no finite tree. */
  lemma ObstacleOnPath(world: set<Cell>, v: PyValue, path: seq<Cell>, why: JsonError) returns (i: nat)
    requires Obstacle(world, [], v, path, why) && path != []
    ensures i < |path| && IsPath(world, path) && forall s :: !Unfolds(world, Ref(path[i]), s)
  {
    assert [] + path == path;
    var last := |path| - 1;
    if why != Cycle {
      i := last;
      forall s ensures !Unfolds(world, Ref(path[i]), s) { BadHasNoTree(world, path[i], why, s); }
    } else {
      i :| 0 <= i < last && path[i] == path[last];
      forall s ensures !Unfolds(world, Ref(path[i]), s) { LoopHasNoTree(world, path, i, last, s); }
    }
  }

  /** A value with an obstacle below it is no finite tree of strict JSON. */
  lemma ObstacleMeansNoTree(world: set<Cell>, v: PyValue, path: seq<Cell>, why: JsonError, t: Json)
    requires Obstacle(world, [], v, path, why)
    ensures !Unfolds(world, v, t)
  {
    if path != [] {
      var i := ObstacleOnPath(world, v, path, why);
      if i > 0 && Unfolds(world, v, t) {
        var _ := Descend(world, path, 0, i, t);
      }
    }
  }

  lemma {:induction false} UnfoldsInLarger(world: set<Cell>, larger: set<Cell>, v: PyValue, t: Json)
    requires Unfolds(world, v, t) && world <= larger
    ensures Unfolds(larger, v, t)
    decreases t
  {
    if v.Ref? {
      PartsUnfold(world, v, t);
      forall i | 0 <= i < |Parts(t)|
        ensures Unfolds(larger, v.cell.Items()[i], Parts(t)[i])
      {
        UnfoldsInLarger(world, larger, v.cell.Items()[i], Parts(t)[i]);
      }
      assert t.Obj? ==> forall i :: 0 <= i < |t.members| ==>
        Parts(t)[i] == t.members[i].value && v.cell.Items()[i] == v.cell.content.entries[i].item;
    }
  }

  /** A copy, with the containers allocated for it and the JSON value it and the original share. */
  ghost predicate Copies(world: set<Cell>, v: PyValue, made: set<Cell>, copy: PyValue, t: Json)
    reads world, made
  {
    Unfolds(world, v, t) && Unfolds(made, copy, t) && Within(copy, made) && Closed(made)
  }

  ghost predicate Walking(world: set<Cell>, active: ActiveSet, above: seq<Cell>)
    reads active, world
  {
    && Closed(world) && active.ids == (set c | c in above) && IsPath(world, above)
    && active.ids <= world
  }

  /** Validate a value and copy it, walking depth first. The active set holds the containers on the way
      down to the value, and is the same after the call however it ends. */
  method Normalize(v: PyValue, active: ActiveSet, ghost world: set<Cell>, ghost above: seq<Cell>)
    returns (r: Result<PyValue, JsonError>, tree: Json, ghost made: set<Cell>, ghost obstacle: seq<Cell>)
    requires Walking(world, active, above) && Within(v, world)
    requires above != [] ==> v in above[|above| - 1].Items()
    modifies active
    ensures active.ids == old(active.ids) && fresh(made)
    ensures r.Ok? ==> Copies(world, v, made, r.value, tree)
    ensures r.Err? ==> Obstacle(world, above, v, obstacle, r.error)
    decreases |world - active.ids|, 2
  {
    r, tree, made, obstacle := Ok(v), Null, {}, [];
    assert above + [] == above;
    match v {
      case PyNone =>
      case PyBool(b) => tree := Bool(b);
      case PyInt(n) => tree := Int(n);
      case PyStr(s) => tree := Str(s);
      case PyFloatValue(f) =>
        if f.NotFinite? { return Err(NonFiniteNumber), tree, made, obstacle; }
        tree := Float(f.repr);
      case Foreign(_) => r := Err(UnsupportedType);
      case Ref(cell) =>
        assert IsPath(world, above + [cell]);
        if cell in active.ids {
          obstacle := [cell];
          assert (above + obstacle)[..|above + obstacle| - 1] == above;
          return Err(Cycle), tree, made, obstacle;
        }
        match cell.content {
          case ListOf(_) => r, tree, made, obstacle := NormalizeList(cell, active, world, above);
          case DictOf(_) => r, tree, made, obstacle := NormalizeDict(cell, active, world, above);
        }
    }
  }

  /** Walking into one more container leaves fewer to walk into. */
  lemma FewerLeft(world: set<Cell>, ids: set<Cell>, cell: Cell)
    requires cell in world - ids
    ensures |world - (ids + {cell})| < |world - ids|
  {
    assert world - ids == (world - (ids + {cell})) + {cell};
  }

  /** The first values of `items` have been copied, into the containers `made`. */
  ghost predicate CopiedSoFar(world: set<Cell>, items: seq<PyValue>, made: set<Cell>,
                              copies: seq<PyValue>, trees: seq<Json>)
    reads world, made
  {
    && |copies| == |trees| <= |items| && Closed(made)
    && forall k :: 0 <= k < |trees| ==>
         Unfolds(world, items[k], trees[k]) && Unfolds(made, copies[k], trees[k]) && Within(copies[k], made)
  }

  lemma CopyOneMore(world: set<Cell>, items: seq<PyValue>, made: set<Cell>, copies: seq<PyValue>, trees: seq<Json>,
                    more: set<Cell>, copy: PyValue, t: Json)
    requires CopiedSoFar(world, items, made, copies, trees) && |copies| < |items|
    requires Copies(world, items[|copies|], more, copy, t)
    ensures CopiedSoFar(world, items, made + more, copies + [copy], trees + [t])
  {
    UnfoldsInLarger(more, made + more, copy, t);
    forall k | 0 <= k < |trees| ensures Unfolds(made + more, copies[k], trees[k]) {
      UnfoldsInLarger(made, made + more, copies[k], trees[k]);
    }
  }

  lemma AllInLarger(world: set<Cell>, items: seq<PyValue>, made: set<Cell>,
                    copies: seq<PyValue>, trees: seq<Json>, c: Cell)
    requires CopiedSoFar(world, items, made, copies, trees)
    ensures forall k :: 0 <= k < |trees| ==> Unfolds(made + {c}, copies[k], trees[k]) && Within(copies[k], made + {c})
  {
    forall k | 0 <= k < |trees| ensures Unfolds(made + {c}, copies[k], trees[k]) {
      UnfoldsInLarger(made, made + {c}, copies[k], trees[k]);
    }
  }

  lemma ListCopied(world: set<Cell>, cell: Cell, made: set<Cell>, copies: seq<PyValue>, trees: seq<Json>, list: Cell)
    requires cell in world && cell.content.ListOf? && CopiedSoFar(world, cell.Items(), made, copies, trees)
    requires |copies| == |cell.Items()| && list.content == ListOf(copies)
    ensures Copies(world, Ref(cell), made + {list}, Ref(list), List(trees))
  {
    AllInLarger(world, cell.Items(), made, copies, trees, list);
  }

  lemma DictCopied(world: set<Cell>, cell: Cell, made: set<Cell>, copies: seq<PyValue>,
                   members: seq<Member>, dict: Cell)
    requires cell in world && cell.content.DictOf? && dict.content.DictOf?
    requires CopiedSoFar(world, cell.Items(), made, copies, ValuesOf(members))
    requires |copies| == |cell.Items()| && KeptKeys(cell.content.entries, copies, members, dict.content.entries)
    ensures Copies(world, Ref(cell), made + {dict}, Ref(dict), Obj(members))
  {
    AllInLarger(world, cell.Items(), made, copies, ValuesOf(members), dict);
    forall v <- dict.Items() ensures Within(v, made + {dict}) {
      var k :| 0 <= k < |dict.Items()| && dict.Items()[k] == v;
      assert v == copies[k];
    }
  }

  /** `normalized` is the start of `entries` with the copied values, and `members` names the same keys. */
  ghost predicate KeptKeys(entries: seq<PyEntry>, copies: seq<PyValue>, members: seq<Member>,
                           normalized: seq<PyEntry>) {
    && |normalized| == |copies| == |members| <= |entries|
    && forall k :: 0 <= k < |normalized| ==>
         && normalized[k].key == entries[k].key == StrKey(members[k].key)
         && normalized[k].item == copies[k]
  }

  lemma KeepOneMore(entries: seq<PyEntry>, copies: seq<PyValue>, members: seq<Member>, normalized: seq<PyEntry>,
                    copy: PyValue, member: Member)
    requires KeptKeys(entries, copies, members, normalized) && |members| < |entries|
    requires entries[|members|].key == StrKey(member.key)
    ensures KeptKeys(entries, copies + [copy], members + [member], normalized + [PyEntry(entries[|members|].key, copy)])
    ensures ValuesOf(members + [member]) == ValuesOf(members) + [member.value]
  {
  }

  twostate lemma BothFresh(new made: set<Cell>, new cell: Cell)
    requires fresh(made) && fresh(cell)
    ensures fresh(made + {cell})
  {
  }

  method NormalizeList(cell: Cell, active: ActiveSet, ghost world: set<Cell>, ghost above: seq<Cell>)
    returns (r: Result<PyValue, JsonError>, tree: Json, ghost made: set<Cell>, ghost obstacle: seq<Cell>)
    requires Walking(world, active, above) && cell in world - active.ids && IsPath(world, above + [cell])
    requires cell.content.ListOf?
    modifies active
    ensures active.ids == old(active.ids) && fresh(made)
    ensures r.Ok? ==> Copies(world, Ref(cell), made, r.value, tree)
    ensures r.Err? ==> Obstacle(world, above, Ref(cell), obstacle, r.error)
    decreases |world - active.ids|, 1
  {
    var copies, trees;
    copies, trees, made, obstacle := EnterList(cell, active, world, above);
    tree := List(trees);
    if copies.Err? { return Err(copies.error), tree, made, obstacle; }
    assert fresh(made);
    var list := NewList(cell, copies.value, world, made, trees);
    BothFresh(made, list);
    made := made + {list};
    r := Ok(Ref(list));
  }

  method NewList(cell: Cell, copies: seq<PyValue>,
                 ghost world: set<Cell>, ghost made: set<Cell>, ghost trees: seq<Json>)
    returns (list: Cell)
    requires cell in world && cell.content.ListOf? && CopiedSoFar(world, cell.Items(), made, copies, trees)
    requires |copies| == |cell.Items()|
    ensures fresh(list) && Copies(world, Ref(cell), made + {list}, Ref(list), List(trees))
  {
    list := new Cell(ListOf(copies));
    ListCopied(world, cell, made, copies, trees, list);
  }

  /** The `finally` of a container's walk: it leaves the active set, and nothing else changes, whether the walk
      has copied its values or has met an obstacle. */
  method Leave(cell: Cell, active: ActiveSet, ghost world: set<Cell>, ghost above: seq<Cell>, ghost made: set<Cell>,
               ghost copies: seq<PyValue>, ghost trees: seq<Json>,
               ghost obstacle: seq<Cell>, ghost why: Option<JsonError>)
    requires why == None ==> CopiedSoFar(world, cell.Items(), made, copies, trees)
    requires why.Some? ==> Obstacle(world, above, Ref(cell), obstacle, why.value)
    modifies active
    ensures active.ids == old(active.ids) - {cell}
    ensures why == None ==> CopiedSoFar(world, cell.Items(), made, copies, trees)
    ensures why.Some? ==> Obstacle(world, above, Ref(cell), obstacle, why.value)
  {
    active.ids := active.ids - {cell};
  }

  method Enter(cell: Cell, active: ActiveSet, ghost world: set<Cell>, ghost above: seq<Cell>)
    requires Walking(world, active, above) && cell in world - active.ids && IsPath(world, above + [cell])
    modifies active
    ensures Walking(world, active, above + [cell]) && active.ids == old(active.ids) + {cell}
    ensures |world - active.ids| < |world - old(active.ids)|
  {
    FewerLeft(world, active.ids, cell);
    active.ids := active.ids + {cell};
  }

  /** The items, with the list in the active set while they are walked. */
  method EnterList(cell: Cell, active: ActiveSet, ghost world: set<Cell>, ghost above: seq<Cell>)
    returns (r: Result<seq<PyValue>, JsonError>, trees: seq<Json>, ghost made: set<Cell>, ghost obstacle: seq<Cell>)
    requires Walking(world, active, above) && cell in world - active.ids && IsPath(world, above + [cell])
    requires cell.content.ListOf?
    modifies active
    ensures active.ids == old(active.ids) && fresh(made)
    ensures r.Ok? ==> |r.value| == |cell.Items()| && CopiedSoFar(world, cell.Items(), made, r.value, trees)
    ensures r.Err? ==> Obstacle(world, above, Ref(cell), obstacle, r.error)
    decreases |world - active.ids|, 0
  {
    Enter(cell, active, world, above);
    r, trees, made, obstacle := NormalizeItems(cell, active, world, above);
    Leave(cell, active, world, above, made, if r.Ok? then r.value else [], trees, obstacle,
          if r.Ok? then None else Some(r.error));
  }

  method NormalizeItems(cell: Cell, active: ActiveSet, ghost world: set<Cell>, ghost above: seq<Cell>)
    returns (r: Result<seq<PyValue>, JsonError>, trees: seq<Json>, ghost made: set<Cell>, ghost obstacle: seq<Cell>)
    requires Walking(world, active, above + [cell]) && cell.content.ListOf?
    modifies active
    ensures active.ids == old(active.ids) && fresh(made)
    ensures r.Ok? ==> |r.value| == |cell.Items()| && CopiedSoFar(world, cell.Items(), made, r.value, trees)
    ensures r.Err? ==> Obstacle(world, above, Ref(cell), obstacle, r.error)
    decreases |world - active.ids|, 3
  {
    var items, copies: seq<PyValue> := cell.content.items, [];
    trees, made, obstacle := [], {}, [];
    assert cell in above + [cell];
    for i := 0 to |items|
      invariant active.ids == old(active.ids) && fresh(made)
      invariant CopiedSoFar(world, items, made, copies, trees) && |copies| == i
    {
      assert items[i] in cell.Items();
      var copy, t, more, below := Normalize(items[i], active, world, above + [cell]);
      if copy.Err? {
        obstacle := [cell] + below;
        ObstacleFromItem(world, above, cell, items[i], below, copy.error);
        return Err(copy.error), trees, made, obstacle;
      }
      CopyOneMore(world, items, made, copies, trees, more, copy.value, t);
      copies, trees := copies + [copy.value], trees + [t];
      made := made + more;
    }
    r := Ok(copies);
  }

  method NormalizeDict(cell: Cell, active: ActiveSet, ghost world: set<Cell>, ghost above: seq<Cell>)
    returns (r: Result<PyValue, JsonError>, tree: Json, ghost made: set<Cell>, ghost obstacle: seq<Cell>)
    requires Walking(world, active, above) && cell in world - active.ids && IsPath(world, above + [cell])
    requires cell.content.DictOf?
    modifies active
    ensures active.ids == old(active.ids) && fresh(made)
    ensures r.Ok? ==> Copies(world, Ref(cell), made, r.value, tree)
    ensures r.Err? ==> Obstacle(world, above, Ref(cell), obstacle, r.error)
    decreases |world - active.ids|, 1
  {
    ghost var copies;
    var normalized, members;
    normalized, members, copies, made, obstacle := EnterDict(cell, active, world, above);
    tree := Obj(members);
    if normalized.Err? { return Err(normalized.error), tree, made, obstacle; }
    assert fresh(made);
    var dict := NewDict(cell, normalized.value, members, world, made, copies);
    BothFresh(made, dict);
    made := made + {dict};
    r := Ok(Ref(dict));
  }

  method NewDict(cell: Cell, normalized: seq<PyEntry>, members: seq<Member>,
                 ghost world: set<Cell>, ghost made: set<Cell>, ghost copies: seq<PyValue>)
    returns (dict: Cell)
    requires cell in world && cell.content.DictOf?
    requires CopiedSoFar(world, cell.Items(), made, copies, ValuesOf(members))
    requires |copies| == |cell.Items()| && KeptKeys(cell.content.entries, copies, members, normalized)
    ensures fresh(dict) && Copies(world, Ref(cell), made + {dict}, Ref(dict), Obj(members))
  {
    dict := new Cell(DictOf(normalized));
    DictCopied(world, cell, made, copies, members, dict);
  }

  /** The entries, with the dictionary in the active set while they are walked. */
  method EnterDict(cell: Cell, active: ActiveSet, ghost world: set<Cell>, ghost above: seq<Cell>)
    returns (r: Result<seq<PyEntry>, JsonError>, members: seq<Member>, ghost copies: seq<PyValue>,
             ghost made: set<Cell>, ghost obstacle: seq<Cell>)
    requires Walking(world, active, above) && cell in world - active.ids && IsPath(world, above + [cell])
    requires cell.content.DictOf?
    modifies active
    ensures active.ids == old(active.ids) && fresh(made)
    ensures r.Ok? ==> |copies| == |cell.Items()| && CopiedSoFar(world, cell.Items(), made, copies, ValuesOf(members))
    ensures r.Ok? ==> KeptKeys(cell.content.entries, copies, members, r.value)
    ensures r.Err? ==> Obstacle(world, above, Ref(cell), obstacle, r.error)
    decreases |world - active.ids|, 0
  {
    Enter(cell, active, world, above);
    r, members, copies, made, obstacle := NormalizeEntries(cell, active, world, above);
    Leave(cell, active, world, above, made, copies, ValuesOf(members), obstacle, if r.Ok? then None else Some(r.error));
  }

  method NormalizeEntries(cell: Cell, active: ActiveSet, ghost world: set<Cell>, ghost above: seq<Cell>)
    returns (r: Result<seq<PyEntry>, JsonError>, members: seq<Member>, ghost copies: seq<PyValue>,
             ghost made: set<Cell>, ghost obstacle: seq<Cell>)
    requires Walking(world, active, above + [cell]) && cell.content.DictOf?
    modifies active
    ensures active.ids == old(active.ids) && fresh(made)
    ensures r.Ok? ==> |copies| == |cell.Items()| && CopiedSoFar(world, cell.Items(), made, copies, ValuesOf(members))
    ensures r.Ok? ==> KeptKeys(cell.content.entries, copies, members, r.value)
    ensures r.Err? ==> Obstacle(world, above, Ref(cell), obstacle, r.error)
    decreases |world - active.ids|, 3
  {
    var entries, normalized: seq<PyEntry> := cell.content.entries, [];
    ghost var items := cell.Items();
    copies, members, made, obstacle := [], [], {}, [];
    assert cell in above + [cell];
    for i := 0 to |entries|
      invariant active.ids == old(active.ids) && fresh(made)
      invariant CopiedSoFar(world, items, made, copies, ValuesOf(members)) && |copies| == i
      invariant KeptKeys(entries, copies, members, normalized)
    {
      if !entries[i].key.StrKey? {
        obstacle := [cell];
        assert entries[i] in cell.content.entries;
        return Err(KeyNotString), members, copies, made, obstacle;
      }
      assert items[i] in cell.Items() && items[i] == entries[i].item;
      var copy, t, more, below := Normalize(entries[i].item, active, world, above + [cell]);
      if copy.Err? {
        obstacle := [cell] + below;
        ObstacleFromItem(world, above, cell, entries[i].item, below, copy.error);
        return Err(copy.error), members, copies, made, obstacle;
      }
      CopyOneMore(world, items, made, copies, ValuesOf(members), more, copy.value, t);
      var member := Member(entries[i].key.s, t);
      KeepOneMore(entries, copies, members, normalized, copy.value, member);
      normalized, copies := normalized + [PyEntry(entries[i].key, copy.value)], copies + [copy.value];
      members := members + [member];
      made := made + more;
    }
    r := Ok(normalized);
  }

  /** An obstacle below something a container holds is an obstacle below the container. */
  lemma ObstacleFromItem(world: set<Cell>, above: seq<Cell>, cell: Cell, v: PyValue, below: seq<Cell>,
                         why: JsonError)
    requires Obstacle(world, above + [cell], v, below, why) && v in cell.Items()
    ensures Obstacle(world, above, Ref(cell), [cell] + below, why)
  {
    assert above + [cell] + below == above + ([cell] + below);
    if below == [] { assert above + [cell] + [] == above + [cell]; }
  }

  /** `normalize_json_value(value)`: it succeeds exactly on the values that are finite trees of strict JSON,
      that is, when nothing bad can be reached and no reachable container contains itself; containers that
      are merely shared are accepted. The copy is the same tree and shares no container with anything. The
      error names an obstacle that is there. */
  method NormalizeJson(v: PyValue, ghost world: set<Cell>)
    returns (r: Result<PyValue, JsonError>, tree: Json, ghost made: set<Cell>, ghost obstacle: seq<Cell>)
    requires Closed(world) && Within(v, world)
    ensures r.Ok? <==> exists t :: Unfolds(world, v, t)
    ensures r.Ok? <==> forall path, why :: !Obstacle(world, [], v, path, why)
    ensures r.Ok? ==> Copies(world, v, made, r.value, tree) && fresh(made)
    ensures r.Err? ==> Obstacle(world, [], v, obstacle, r.error)
  {
    var active := new ActiveSet();
    r, tree, made, obstacle := Normalize(v, active, world, []);
    if r.Err? {
      forall t ensures !Unfolds(world, v, t) { ObstacleMeansNoTree(world, v, obstacle, r.error, t); }
    } else {
      assert Unfolds(world, v, tree);
      forall path, why ensures !Obstacle(world, [], v, path, why) {
        if Obstacle(world, [], v, path, why) { ObstacleMeansNoTree(world, v, path, why, tree); }
      }
    }
  }

  /** The strict JSON content of a value, or None if it has none. */
  ghost predicate ContentIs(world: set<Cell>, v: PyValue, content: Option<Json>)
    reads world
  {
    match content
    case Some(t) => Unfolds(world, v, t)
    case None => forall t :: !Unfolds(world, v, t)
  }

  method ContentOf(v: PyValue, ghost world: set<Cell>) returns (content: Option<Json>)
    requires Closed(world) && Within(v, world)
    ensures ContentIs(world, v, content)
  {
    var r, tree, made, obstacle := NormalizeJson(v, world);
    content := if r.Ok? then Some(tree) else None;
  }

  ghost predicate HoldEachOther(list: Cell, dict: Cell)
    reads list, dict
  {
    list.content == ListOf([Ref(dict)]) && dict.content == DictOf([PyEntry(StrKey("list"), Ref(list))])
  }

  lemma LoopIsObstacle(list: Cell, dict: Cell)
    requires HoldEachOther(list, dict)
    ensures Closed({list, dict}) && Obstacle({list, dict}, [], Ref(list), [list, dict, list], Cycle)
  {
    var path := [list, dict, list];
    assert list.Items() == [Ref(dict)] && dict.Items() == [Ref(list)];
    assert [] + path == path && path[..2] == [list, dict];
  }

  lemma LoopIsOnlyObstacle(list: Cell, dict: Cell, path: seq<Cell>, why: JsonError)
    requires HoldEachOther(list, dict) && Obstacle({list, dict}, [], Ref(list), path, why)
    ensures why == Cycle
  {
    assert list.Items() == [Ref(dict)] && dict.Items() == [Ref(list)];
    assert [] + path == path;
    assert path != [] && path[|path| - 1] in path;
  }

  /** A list that holds a dictionary that holds the list, built and refused. */
  method CycleIsRefused() returns (r: Result<PyValue, JsonError>)
    ensures r == Err(Cycle)
  {
    var list := new Cell(ListOf([]));
    var dict := new Cell(DictOf([PyEntry(StrKey("list"), Ref(list))]));
    list.content := ListOf([Ref(dict)]);
    LoopIsObstacle(list, dict);
    var normalized, tree, made, obstacle := NormalizeJson(Ref(list), {list, dict});
    LoopIsObstacle(list, dict);
    LoopIsOnlyObstacle(list, dict, obstacle, normalized.error);
    r := normalized;
  }
}
