/** What a layer's tree says of a field, in terms of its keys and values alone. */
module YamlTrees {
  import opened Common
  import opened YamlScanner
  import opened YamlLayers
  import opened YamlTexts

  /** Following the keys of the path leads to a leaf with this value. */
  ghost predicate LeafAt(entries: seq<Entry>, path: seq<string>, v: Scalar)
    decreases |path|
  {
    path != [] && exists i :: 0 <= i < |entries| && EntryLeads(entries[i], path, v)
  }

  ghost predicate EntryLeads(e: Entry, path: seq<string>, v: Scalar)
    requires path != []
    decreases |path|, 0
  {
    e.key == path[0] &&
    if |path| == 1 then e.node == Leaf(v) else e.node.Group? && LeafAt(e.node.entries, path[1..], v)
  }

  lemma LeafAtSplits(entries: seq<Entry>, path: seq<string>, v: Scalar)
    requires entries != [] && path != []
    ensures LeafAt(entries, path, v) <==> EntryLeads(entries[0], path, v) || LeafAt(entries[1..], path, v)
  {
    if LeafAt(entries, path, v) {
      var i :| 0 <= i < |entries| && EntryLeads(entries[i], path, v);
      assert i > 0 ==> entries[1..][i - 1] == entries[i];
    }
    if LeafAt(entries[1..], path, v) {
      var i :| 0 <= i < |entries[1..]| && EntryLeads(entries[1..][i], path, v);
      assert entries[i + 1] == entries[1..][i];
    }
  }

  /** The leaves of one entry. */
  function Own(e: Entry, prefix: seq<string>): seq<Position> {
    match e.node
    case Leaf(v) => [Position(prefix + [e.key], v)]
    case Group(sub) => Leaves(sub, prefix + [e.key])
  }

  /** The leaves are those that the keys lead to, each under the keys that lead there. */
  lemma {:induction false} LeavesIff(entries: seq<Entry>, prefix: seq<string>, path: seq<string>, v: Scalar)
    ensures Position(path, v) in Leaves(entries, prefix) <==>
            prefix <= path && LeafAt(entries, path[|prefix|..], v)
    decreases entries
  {
    if entries != [] {
      LeavesIff(entries[1..], prefix, path, v);
      OwnIff(entries[0], prefix, path, v);
      assert Leaves(entries, prefix) == Own(entries[0], prefix) + Leaves(entries[1..], prefix);
      if prefix < path {
        LeafAtSplits(entries, path[|prefix|..], v);
      }
    }
  }

  lemma {:induction false} OwnIff(e: Entry, prefix: seq<string>, path: seq<string>, v: Scalar)
    ensures Position(path, v) in Own(e, prefix) <==>
            prefix < path && EntryLeads(e, path[|prefix|..], v)
    decreases e
  {
    var here := prefix + [e.key];
    if e.node.Group? {
      LeavesIff(e.node.entries, here, path, v);
    }
    if prefix < path {
      var rest := path[|prefix|..];
      assert path == prefix + rest;
      assert here <= path <==> rest[0] == e.key;
      assert path == here <==> rest == [e.key];
      assert here <= path ==> rest[1..] == path[|here|..];
    }
  }

  /** The leaves of one part of a mapping come before those of what follows it. */
  lemma {:induction false} LeavesInOrder(a: seq<Entry>, b: seq<Entry>, prefix: seq<string>)
    ensures Leaves(a + b, prefix) == Leaves(a, prefix) + Leaves(b, prefix)
    decreases |a|
  {
    if a == [] {
      assert a + b == b;
    } else {
      assert (a + b)[0] == a[0] && (a + b)[1..] == a[1..] + b;
      LeavesInOrder(a[1..], b, prefix);
    }
  }

  function LeafCount(entries: seq<Entry>): nat
    decreases entries
  {
    if entries == [] then 0
    else (match entries[0].node case Leaf(_) => 1 case Group(sub) => LeafCount(sub)) + LeafCount(entries[1..])
  }

  lemma {:induction false} LeavesCounted(entries: seq<Entry>, prefix: seq<string>)
    ensures |Leaves(entries, prefix)| == LeafCount(entries)
    decreases entries
  {
    if entries != [] {
      LeavesCounted(entries[1..], prefix);
      if entries[0].node.Group? {
        LeavesCounted(entries[0].node.entries, prefix + [entries[0].key]);
      }
    }
  }

  /** Joining puts one separator between neighbours. */
  lemma {:induction false} JoinConcat(a: seq<string>, b: seq<string>, separator: string)
    requires a != [] && b != []
    ensures Join(a + b, separator) == Join(a, separator) + separator + Join(b, separator)
    decreases |a|
  {
    if |a| == 1 {
      assert (a + b)[1..] == b;
    } else {
      JoinConcat(a[1..], b, separator);
      assert (a + b)[1..] == a[1..] + b;
      var rest := Join(a[1..], separator);
      assert a[0] + separator + (rest + separator + Join(b, separator))
          == a[0] + separator + rest + separator + Join(b, separator);
    }
  }

  // ---------------------------------------------------------------- values

  function SpellItem(item: Result<Written, int>): Item {
    match item
    case Ok(w) => TextItem(Spell(w))
    case Err(raw) => OtherItem(raw)
  }

  function SpellItems(items: seq<Result<Written, int>>): seq<Item> {
    if items == [] then [] else [SpellItem(items[0])] + SpellItems(items[1..])
  }

  /** The elements read one by one; the first that fails names its variable. */
  function ReadItems(items: seq<Result<Written, int>>, env: Env): Result<seq<Item>, string> {
    if items == [] then Ok([])
    else
      var head := match items[0]
                  case Err(raw) => Ok(OtherItem(raw))
                  case Ok(w) =>
                    match Reading(w, env)
                    case Ok(t) => Ok(TextItem(t))
                    case Err(name) => Err(name);
      if head.Err? then Err(head.error)
      else
        match ReadItems(items[1..], env)
        case Err(name) => Err(name)
        case Ok(rest) => Ok([head.value] + rest)
  }

  ghost predicate ItemsSpellable(items: seq<Result<Written, int>>, env: Env) {
    forall i | 0 <= i < |items| && items[i].Ok? :: Spellable(items[i].value) && Clean(items[i].value, env)
  }

  /** A text is read as written; a placeholder alone may be absent. */
  lemma ExpandWritten(w: Written, env: Env)
    requires Spellable(w) && Clean(w, env)
    ensures Expand(Text(Spell(w)), env) ==
            match Reading(w, env)
            case Ok(t) => Resolved(Text(t))
            case Err(name) => if Alone(w) then Absent else Unsupplied(name)
  {
    InterpolateWritten(w, env, true);
  }

  /** A sequence is read element by element; no element may be absent. */
  lemma ExpandSequence(items: seq<Result<Written, int>>, env: Env)
    requires ItemsSpellable(items, env)
    ensures Expand(Sequence(SpellItems(items)), env) ==
            match ReadItems(items, env)
            case Ok(read) => Resolved(Sequence(read))
            case Err(name) => Unsupplied(name)
  {
    ItemsExpand(items, env);
  }

  lemma {:induction false} ItemsExpand(items: seq<Result<Written, int>>, env: Env)
    requires ItemsSpellable(items, env)
    ensures ExpandItems(SpellItems(items), env) == ReadItems(items, env)
  {
    if items != [] {
      assert ItemsSpellable(items[1..], env) by {
        assert forall i | 0 <= i < |items| - 1 :: items[1..][i] == items[i + 1];
      }
      ItemsExpand(items[1..], env);
      assert SpellItems(items)[0] == SpellItem(items[0]) && SpellItems(items)[1..] == SpellItems(items[1..]);
      if items[0].Ok? {
        InterpolateWritten(items[0].value, env, false);
      }
    }
  }

  // ---------------------------------------------------------------- fields

  /** The keys that lead to the value spell the field, whichever nesting they come in. */
  ghost predicate SpellsField(entries: seq<Entry>, path: seq<string>, raw: Scalar, field: string) {
    LeafAt(entries, path, raw) && Join(path, "_") == field
  }

  /** A layer gives a field the value of the leaf whose keys spell it, if that leaf resolves. */
  lemma SuppliedIff(entries: seq<Entry>, field: string, env: Env, v: Scalar)
    requires NamesDistinct(Leaves(entries, []))
    ensures Supplied(Mapping(entries), field, env) == Some(v) <==>
            exists path, raw :: SpellsField(entries, path, raw, field) && Expand(raw, env) == Resolved(v)
  {
    var ps := Leaves(entries, []);
    if path, raw :| SpellsField(entries, path, raw, field) && Expand(raw, env) == Resolved(v) {
      LeavesIff(entries, [], path, raw);
      assert path[0..] == path;
      var i :| 0 <= i < |ps| && ps[i] == Position(path, raw);
      SupplyAt(ps, i, env);
    }
    if Supplied(Mapping(entries), field, env) == Some(v) {
      var i := SupplyFrom(ps, field, env);
      LeavesIff(entries, [], ps[i].path, ps[i].value);
      assert ps[i] == Position(ps[i].path, ps[i].value) && ps[i].path[0..] == ps[i].path;
      assert SpellsField(entries, ps[i].path, ps[i].value, field);
    }
  }

  lemma {:induction false} SupplyFrom(ps: seq<Position>, field: string, env: Env) returns (i: nat)
    requires Supply(ps, field, env).Some?
    ensures i < |ps| && Flat(ps[i]) == field
    ensures Expand(ps[i].value, env) == Resolved(Supply(ps, field, env).value)
  {
    if Flat(ps[0]) == field {
      i := 0;
    } else {
      i := SupplyFrom(ps[1..], field, env);
      i := i + 1;
    }
  }

  /** Layer `i` supplies the value, and no layer above it supplies any. */
  ghost predicate Decides(layers: seq<Parsed>, i: nat, field: string, env: Env, v: Scalar) {
    && i < |layers| && Supplied(layers[i], field, env) == Some(v)
    && forall j | i < j < |layers| :: Supplied(layers[j], field, env).None?
  }

  lemma {:induction false} LastSuppliedIff(layers: seq<Parsed>, field: string, env: Env, v: Scalar)
    ensures LastSupplied(layers, field, env) == Some(v) <==> exists i: nat :: Decides(layers, i, field, env, v)
    decreases |layers|
  {
    if layers != [] {
      var n := |layers| - 1;
      var below := layers[..n];
      LastSuppliedIff(below, field, env, v);
      if Supplied(layers[n], field, env) == Some(v) {
        assert Decides(layers, n, field, env, v);
      }
      if i: nat :| Decides(below, i, field, env, v) && Supplied(layers[n], field, env).None? {
        assert Decides(layers, i, field, env, v);
      }
      if i: nat :| Decides(layers, i, field, env, v) && i < n {
        assert Decides(below, i, field, env, v);
      }
    }
  }

  /** The paths reported as unknown are those of the leaves that name no setting, in file order. */
  lemma {:induction false} UnknownPathsAre(ps: seq<Position>, fields: set<string>, p: Position)
    ensures UnknownPaths(ps + [p], fields) ==
            UnknownPaths(ps, fields) + if Flat(p) in fields then [] else [Dotted(p)]
  {
    assert (ps + [p])[..|ps|] == ps;
  }
}
