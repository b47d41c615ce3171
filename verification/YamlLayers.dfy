/** YAML layers: flattening nested keys, loading one layer, and stacking layers. */
module YamlLayers {
  import opened Common
  import opened YamlScanner

  /** A leaf as parsed: text, a sequence, or any other scalar. */
  datatype Scalar = Text(text: string) | Sequence(items: seq<Item>) | Other(raw: int)

  datatype Item = TextItem(text: string) | OtherItem(raw: int)

  /** A mapping's entries, in file order, under the text of their keys. */
  datatype Node = Leaf(value: Scalar) | Group(entries: seq<Entry>)

  datatype Entry = Entry(key: string, node: Node)

  /** What a layer's file holds. */
  datatype Parsed = Missing | Nothing | NotMapping | Mapping(entries: seq<Entry>)

  /** A leaf of the tree, with the keys that lead to it. */
  datatype Position = Position(path: seq<string>, value: Scalar)

  /** A row of the flattened table. */
  datatype Named = Named(name: string, dotted: string, value: Scalar)

  datatype ConfigError =
    | Collision(dotted: string, earlier: string, name: string)
    | StageKey
    | UnsetVariable(dotted: string, variable: string)
    | UnknownSettings(paths: seq<string>)
    | NotAMapping

  function Join(path: seq<string>, separator: string): string {
    if path == [] then ""
    else if |path| == 1 then path[0]
    else path[0] + separator + Join(path[1..], separator)
  }

  function Flat(p: Position): string { Join(p.path, "_") }

  function Dotted(p: Position): string { Join(p.path, ".") }

  function Row(p: Position): Named { Named(Flat(p), Dotted(p), p.value) }

  /** The leaves of a mapping, in file order. */
  function Leaves(entries: seq<Entry>, prefix: seq<string>): seq<Position>
    decreases entries
  {
    if entries == [] then []
    else
      var path := prefix + [entries[0].key];
      (match entries[0].node
       case Leaf(v) => [Position(path, v)]
       case Group(sub) => Leaves(sub, path))
      + Leaves(entries[1..], prefix)
  }

  function RowOf(out: seq<Named>, name: string): Option<Named> {
    if out == [] then None
    else if out[0].name == name then Some(out[0]) else RowOf(out[1..], name)
  }

  /** Adds leaves to the table until one takes a name already there. */
  function AddAll(ps: seq<Position>, out: seq<Named>): (seq<Named>, Option<ConfigError>) {
    if ps == [] then (out, None)
    else
      match RowOf(out, Flat(ps[0]))
      case Some(row) => (out, Some(Collision(Dotted(ps[0]), row.dotted, Flat(ps[0]))))
      case None => AddAll(ps[1..], out + [Row(ps[0])])
  }

  lemma {:induction false} AddAllConcat(ps: seq<Position>, qs: seq<Position>, out: seq<Named>)
    ensures AddAll(ps + qs, out) ==
            if AddAll(ps, out).1.Some? then AddAll(ps, out) else AddAll(qs, AddAll(ps, out).0)
    decreases |ps|
  {
    if ps == [] {
      assert ps + qs == qs;
    } else {
      assert (ps + qs)[0] == ps[0] && (ps + qs)[1..] == ps[1..] + qs;
      if RowOf(out, Flat(ps[0])).None? {
        AddAllConcat(ps[1..], qs, out + [Row(ps[0])]);
      }
    }
  }

  /** The dictionary that flattening fills. */
  class LeafTable {
    var out: seq<Named>

    constructor ()
      ensures out == []
    {
      out := [];
    }

    /** Recurses into groups; raises at the first name taken twice. */
    method Flatten(entries: seq<Entry>, prefix: seq<string>) returns (error: Option<ConfigError>)
      modifies this
      ensures (out, error) == AddAll(Leaves(entries, prefix), old(out))
      decreases entries
    {
      var i := 0;
      while i < |entries|
        invariant i <= |entries|
        invariant AddAll(Leaves(entries, prefix), old(out)) == AddAll(Leaves(entries[i..], prefix), out)
      {
        var path := prefix + [entries[i].key];
        ghost var rest := Leaves(entries[i + 1..], prefix);
        assert entries[i..][1..] == entries[i + 1..];
        match entries[i].node {
          case Group(sub) =>
            assert Leaves(entries[i..], prefix) == Leaves(sub, path) + rest;
            AddAllConcat(Leaves(sub, path), rest, out);
            error := Flatten(sub, path);
            if error.Some? {
              return;
            }
          case Leaf(v) =>
            var leaf := Position(path, v);
            assert Leaves(entries[i..], prefix) == [leaf] + rest;
            assert ([leaf] + rest)[1..] == rest;
            match RowOf(out, Flat(leaf)) {
              case Some(row) =>
                return Some(Collision(Dotted(leaf), row.dotted, Flat(leaf)));
              case None =>
                out := out + [Row(leaf)];
            }
        }
        i := i + 1;
      }
      error := None;
    }
  }

  // ---------------------------------------------------------------- when flattening fails

  ghost predicate NamesDistinct(ps: seq<Position>) {
    forall i, j | 0 <= i < j < |ps| :: Flat(ps[i]) != Flat(ps[j])
  }

  function Rows(ps: seq<Position>): seq<Named> {
    seq(|ps|, i requires 0 <= i < |ps| => Row(ps[i]))
  }

  lemma {:induction false} RowOfFinds(out: seq<Named>, name: string)
    ensures match RowOf(out, name)
            case Some(row) => row in out && row.name == name
            case None => forall r | r in out :: r.name != name
  {
    if out != [] {
      RowOfFinds(out[1..], name);
    }
  }

  lemma {:induction false} AddAllFrom(done: seq<Position>, ps: seq<Position>)
    requires NamesDistinct(done)
    ensures var (out, error) := AddAll(ps, Rows(done));
            && (error.None? <==> NamesDistinct(done + ps))
            && (error.None? ==> out == Rows(done + ps))
            && (error.Some? ==> Collides(done + ps, error.value))
    decreases |ps|
  {
    var all := done + ps;
    if ps == [] {
      assert all == done;
    } else {
      var row := RowOf(Rows(done), Flat(ps[0]));
      RowOfFinds(Rows(done), Flat(ps[0]));
      if row.Some? {
        var i :| 0 <= i < |Rows(done)| && Rows(done)[i] == row.value;
        assert all[i] == done[i] && all[|done|] == ps[0];
        assert CollidesAt(all, i, |done|, Collision(Dotted(ps[0]), row.value.dotted, Flat(ps[0])));
      } else {
        var more := done + [ps[0]];
        forall i | 0 <= i < |done| ensures Flat(done[i]) != Flat(ps[0]) {
          assert Rows(done)[i] in Rows(done) && Rows(done)[i].name == Flat(done[i]);
        }
        assert Rows(more) == Rows(done) + [Row(ps[0])];
        assert more + ps[1..] == all;
        AddAllFrom(more, ps[1..]);
      }
    }
  }

  /** The error names the dotted paths of two leaves at different positions, and their joint name. */
  predicate CollidesAt(ps: seq<Position>, i: nat, j: nat, e: ConfigError) {
    && i < j < |ps| && Flat(ps[i]) == Flat(ps[j])
    && e == Collision(Dotted(ps[j]), Dotted(ps[i]), Flat(ps[j]))
  }

  ghost predicate Collides(ps: seq<Position>, e: ConfigError) {
    exists i, j :: CollidesAt(ps, i, j, e)
  }

  /**
    Flattening a tree of any depth fails exactly when two leaf positions join to one name, and names
    such a pair; otherwise the table holds each leaf once, under its joined name and dotted path.
   */
  lemma FlattenIff(entries: seq<Entry>)
    ensures var ps := Leaves(entries, []);
            var (out, error) := AddAll(ps, []);
            && (error.None? <==> NamesDistinct(ps))
            && (error.None? ==> out == Rows(ps))
            && (error.Some? ==> Collides(ps, error.value))
  {
    assert Rows([]) == [];
    assert [] + Leaves(entries, []) == Leaves(entries, []);
    AddAllFrom([], Leaves(entries, []));
  }

  // ---------------------------------------------------------------- one layer

  datatype Expanded = Resolved(value: Scalar) | Absent | Unsupplied(variable: string)

  /** An element of a sequence has no key to leave absent. */
  function ExpandItems(items: seq<Item>, env: Env): Result<seq<Item>, string> {
    if items == [] then Ok([])
    else
      var head :=
        match items[0]
        case OtherItem(_) => Ok(items[0])
        case TextItem(t) =>
          (match Interpolate(t, env, false)
           case Value(v) => Ok(TextItem(v))
           case Unset(name) => Err(name)
           case Unresolved => assert false; Err(""));
      match head
      case Err(name) => Err(name)
      case Ok(item) =>
        match ExpandItems(items[1..], env)
        case Ok(rest) => Ok([item] + rest)
        case Err(name) => Err(name)
  }

  function Expand(value: Scalar, env: Env): (e: Expanded)
    ensures value.Other? ==> e == Resolved(value)
    ensures e.Absent? ==> value.Text?
    ensures e.Resolved? ==> (e.value.Text? <==> value.Text?) && (e.value.Sequence? <==> value.Sequence?)
  {
    match value
    case Other(_) => Resolved(value)
    case Text(t) =>
      (match Interpolate(t, env, true)
       case Value(v) => Resolved(Text(v))
       case Unresolved => Absent
       case Unset(name) => Unsupplied(name))
    case Sequence(items) =>
      match ExpandItems(items, env)
      case Ok(expanded) => Resolved(Sequence(expanded))
      case Err(name) => Unsupplied(name)
  }

  const STAGE_KEY := "app_env"

  type Data = map<string, Scalar>

  /** The value the layer gives to a field: that of the leaf spelled so, if it resolves. */
  function Supply(ps: seq<Position>, field: string, env: Env): Option<Scalar> {
    if ps == [] then None
    else if Flat(ps[0]) == field then
      match Expand(ps[0].value, env) case Resolved(v) => Some(v) case _ => None
    else Supply(ps[1..], field, env)
  }

  /** What a layer must satisfy: distinct known names, no stage, nothing unsupplied. */
  ghost predicate ValidLayer(layer: Parsed, fields: set<string>, env: Env) {
    match layer
    case Missing => true
    case Nothing => true
    case NotMapping => false
    case Mapping(entries) =>
      var ps := Leaves(entries, []);
      && NamesDistinct(ps)
      && forall i | 0 <= i < |ps| ::
           Flat(ps[i]) != STAGE_KEY && Flat(ps[i]) in fields && !Expand(ps[i].value, env).Unsupplied?
  }

  function Supplied(layer: Parsed, field: string, env: Env): Option<Scalar> {
    if layer.Mapping? then Supply(Leaves(layer.entries, []), field, env) else None
  }

  function Lookup(data: Data, field: string): Option<Scalar> {
    if field in data then Some(data[field]) else None
  }

  lemma {:induction false} SupplyOfLast(ps: seq<Position>, p: Position, field: string, env: Env)
    requires NamesDistinct(ps + [p])
    ensures Supply(ps + [p], field, env) ==
            if Flat(p) == field then (match Expand(p.value, env) case Resolved(v) => Some(v) case _ => None)
            else Supply(ps, field, env)
  {
    var all := ps + [p];
    if ps == [] {
      assert all[1..] == [];
    } else {
      assert all[0] == ps[0] && all[1..] == ps[1..] + [p] && all[|ps|] == p;
      SupplyOfLast(ps[1..], p, field, env);
    }
  }

  /** The leaf can be used: it is not the stage, and a known one does not lack a variable. */
  predicate Usable(p: Position, fields: set<string>, env: Env) {
    Flat(p) != STAGE_KEY && (Flat(p) in fields ==> !Expand(p.value, env).Unsupplied?)
  }

  /** The dotted paths of the leaves that name no setting. */
  function UnknownPaths(ps: seq<Position>, fields: set<string>): seq<string> {
    if ps == [] then []
    else
      var last := ps[|ps| - 1];
      UnknownPaths(ps[..|ps| - 1], fields) + if Flat(last) in fields then [] else [Dotted(last)]
  }

  /** Leaf `k` is the first one that cannot be used. */
  ghost predicate FailsAt(ps: seq<Position>, k: nat, fields: set<string>, env: Env) {
    k < |ps| && !Usable(ps[k], fields, env) && forall j | 0 <= j < k :: Usable(ps[j], fields, env)
  }

  /** The error is that of the first unusable leaf, or else lists every unknown one. */
  ghost predicate LeafError(ps: seq<Position>, fields: set<string>, env: Env, e: ConfigError) {
    || (exists k: nat ::
          && FailsAt(ps, k, fields, env)
          && e == if Flat(ps[k]) == STAGE_KEY then StageKey
                  else UnsetVariable(Dotted(ps[k]), Expand(ps[k].value, env).variable))
    || (&& (forall k | 0 <= k < |ps| :: Usable(ps[k], fields, env))
        && UnknownPaths(ps, fields) != [] && e == UnknownSettings(UnknownPaths(ps, fields)))
  }

  /** What the loop over the leaves has gathered from the first `i` of them. */
  ghost predicate Gathered(
    ps: seq<Position>, i: nat, fields: set<string>, env: Env, data: Data, unknown: seq<string>)
    requires i <= |ps|
  {
    && (forall k | 0 <= k < i :: Usable(ps[k], fields, env))
    && unknown == UnknownPaths(ps[..i], fields)
    && (forall f :: Lookup(data, f) == if f in fields then Supply(ps[..i], f, env) else None)
  }

  lemma GatherNext(
    ps: seq<Position>, i: nat, fields: set<string>, env: Env,
    data: Data, unknown: seq<string>, data': Data, unknown': seq<string>)
    requires i < |ps| && NamesDistinct(ps) && Gathered(ps, i, fields, env, data, unknown)
    requires Usable(ps[i], fields, env)
    requires unknown' == unknown + if Flat(ps[i]) in fields then [] else [Dotted(ps[i])]
    requires data' == if Flat(ps[i]) in fields && Expand(ps[i].value, env).Resolved?
                      then data[Flat(ps[i]) := Expand(ps[i].value, env).value] else data
    ensures Gathered(ps, i + 1, fields, env, data', unknown')
  {
    assert ps[..i + 1] == ps[..i] + [ps[i]];
    assert ps[..i + 1][..i] == ps[..i];
    forall f ensures Lookup(data', f) == if f in fields then Supply(ps[..i + 1], f, env) else None {
      assert Lookup(data, f) == if f in fields then Supply(ps[..i], f, env) else None;
      SupplyNext(ps, i, f, env);
    }
  }

  lemma SupplyNext(ps: seq<Position>, i: nat, field: string, env: Env)
    requires i < |ps| && NamesDistinct(ps)
    ensures Supply(ps[..i + 1], field, env) ==
            if Flat(ps[i]) != field then Supply(ps[..i], field, env)
            else match Expand(ps[i].value, env) case Resolved(v) => Some(v) case _ => None
    ensures Flat(ps[i]) == field ==> Supply(ps[..i], field, env) == None
  {
    assert ps[..i + 1] == ps[..i] + [ps[i]];
    SupplyOfLast(ps[..i], ps[i], field, env);
    if Flat(ps[i]) == field {
      NameNotAmong(ps[..i], field, env);
    }
  }

  lemma {:induction false} NoUnknownPaths(ps: seq<Position>, fields: set<string>)
    ensures UnknownPaths(ps, fields) == [] <==> forall k | 0 <= k < |ps| :: Flat(ps[k]) in fields
  {
    if ps != [] {
      NoUnknownPaths(ps[..|ps| - 1], fields);
      assert forall k | 0 <= k < |ps| - 1 :: ps[..|ps| - 1][k] == ps[k];
    }
  }

  lemma {:induction false} NameNotAmong(ps: seq<Position>, field: string, env: Env)
    requires forall k | 0 <= k < |ps| :: Flat(ps[k]) != field
    ensures Supply(ps, field, env) == None
  {
    if ps != [] {
      NameNotAmong(ps[1..], field, env);
    }
  }

  /** The loop of `load_layer` over the flattened table. */
  method ResolveLeaves(leaves: seq<Named>, ghost ps: seq<Position>, fields: set<string>, env: Env)
    returns (r: Result<Data, ConfigError>)
    requires NamesDistinct(ps) && leaves == Rows(ps)
    ensures r.Ok? <==>
            forall k | 0 <= k < |ps| :: Flat(ps[k]) in fields && Usable(ps[k], fields, env)
    ensures r.Ok? ==> forall f :: Lookup(r.value, f) == Supply(ps, f, env)
    ensures r.Err? ==> LeafError(ps, fields, env, r.error)
  {
    var data: Data := map[];
    var unknown := [];
    for i := 0 to |leaves|
      invariant Gathered(ps, i, fields, env, data, unknown)
    {
      var row := leaves[i];
      assert row == Row(ps[i]);
      ghost var data0, unknown0 := data, unknown;
      assert !Usable(ps[i], fields, env) ==> FailsAt(ps, i, fields, env);
      if row.name == STAGE_KEY {
        return Err(StageKey);
      }
      if row.name !in fields {
        unknown := unknown + [row.dotted];
      } else {
        match Expand(row.value, env) {
          case Unsupplied(name) => return Err(UnsetVariable(row.dotted, name));
          case Absent =>
          case Resolved(v) => data := data[row.name := v];
        }
      }
      GatherNext(ps, i, fields, env, data0, unknown0, data, unknown);
    }
    assert ps[..|ps|] == ps;
    NoUnknownPaths(ps, fields);
    if unknown != [] {
      return Err(UnknownSettings(unknown));
    }
    GatheredAll(ps, fields, env, data);
    r := Ok(data);
  }

  lemma GatheredAll(ps: seq<Position>, fields: set<string>, env: Env, data: Data)
    requires Gathered(ps, |ps|, fields, env, data, [])
    ensures forall f :: Lookup(data, f) == Supply(ps, f, env)
  {
    NoUnknownPaths(ps, fields);
    assert ps[..|ps|] == ps;
    forall f ensures Lookup(data, f) == Supply(ps, f, env) {
      if f !in fields {
        NameNotAmong(ps, f, env);
      }
    }
  }

  /**
    Loading succeeds exactly on valid layers, and then holds for every field what the layer supplies.
   */
  method LoadLayer(layer: Parsed, fields: set<string>, env: Env) returns (r: Result<Data, ConfigError>)
    ensures r.Ok? <==> ValidLayer(layer, fields, env)
    ensures r.Ok? ==> forall f :: Lookup(r.value, f) == Supplied(layer, f, env)
    ensures r == Err(NotAMapping) <==> layer.NotMapping?
    ensures layer.Mapping? && r.Err? ==>
              var ps := Leaves(layer.entries, []);
              if NamesDistinct(ps) then LeafError(ps, fields, env, r.error) else Collides(ps, r.error)
  {
    match layer {
      case Missing => r := Ok(map[]);
      case Nothing => r := Ok(map[]);
      case NotMapping => r := Err(NotAMapping);
      case Mapping(entries) =>
        var table := new LeafTable();
        var error := table.Flatten(entries, []);
        FlattenIff(entries);
        if error.Some? {
          return Err(error.value);
        }
        r := ResolveLeaves(table.out, Leaves(entries, []), fields, env);
    }
  }

  // ---------------------------------------------------------------- the stack of layers

  /** The last layer to supply the field decides. */
  function LastSupplied(layers: seq<Parsed>, field: string, env: Env): Option<Scalar> {
    if layers == [] then None
    else
      var top := Supplied(layers[|layers| - 1], field, env);
      if top.Some? then top else LastSupplied(layers[..|layers| - 1], field, env)
  }

  class YamlSettingsSource {
    var data: Data

    constructor ()
      ensures data == map[]
    {
      data := map[];
    }

    /**
      Stacks the layers, lowest precedence first. It succeeds exactly when every layer is valid, and
      then each field has the value of the last layer that resolves it, and is absent if none does.
     */
    method Load(layers: seq<Parsed>, fields: set<string>, env: Env) returns (error: Option<ConfigError>)
      modifies this
      ensures error.None? <==> forall i | 0 <= i < |layers| :: ValidLayer(layers[i], fields, env)
      ensures error.None? ==> forall f :: Lookup(data, f) == LastSupplied(layers, f, env)
      ensures error.Some? ==> data == old(data)
    {
      var merged: Data := map[];
      for i := 0 to |layers|
        invariant data == old(data)
        invariant forall k | 0 <= k < i :: ValidLayer(layers[k], fields, env)
        invariant forall f :: Lookup(merged, f) == LastSupplied(layers[..i], f, env)
      {
        var loaded := LoadLayer(layers[i], fields, env);
        if loaded.Err? {
          return Some(loaded.error);
        }
        ghost var before := merged;
        merged := merged + loaded.value;
        assert layers[..i + 1][..i] == layers[..i] && layers[..i + 1][i] == layers[i];
        forall f ensures Lookup(merged, f) == LastSupplied(layers[..i + 1], f, env) {
          assert Lookup(loaded.value, f) == Supplied(layers[i], f, env);
          assert Lookup(before, f) == LastSupplied(layers[..i], f, env);
        }
      }
      assert layers[..|layers|] == layers;
      data := merged;
      error := None;
    }
  }

  /**
    Only resolved leaves count: a field whose leaf, in the top layer, is a bare placeholder that
    nothing supplies keeps the value of the layers below, however either layer nests it.
   */
  lemma UnresolvedNeverHides(layers: seq<Parsed>, top: seq<Entry>, i: nat, raw: string, env: Env)
    requires i < |Leaves(top, [])| && NamesDistinct(Leaves(top, []))
    requires Leaves(top, [])[i].value == Text(raw) && Interpolate(raw, env, true).Unresolved?
    ensures LastSupplied(layers + [Mapping(top)], Flat(Leaves(top, [])[i]), env)
            == LastSupplied(layers, Flat(Leaves(top, [])[i]), env)
  {
    var ps := Leaves(top, []);
    SupplyAt(ps, i, env);
    assert (layers + [Mapping(top)])[..|layers|] == layers;
  }

  /** A field is supplied by the leaf that spells it, wherever the tree holds that leaf. */
  lemma {:induction false} SupplyAt(ps: seq<Position>, i: nat, env: Env)
    requires i < |ps| && NamesDistinct(ps)
    ensures Supply(ps, Flat(ps[i]), env) ==
            match Expand(ps[i].value, env) case Resolved(v) => Some(v) case _ => None
  {
    if i > 0 {
      assert ps[1..][i - 1] == ps[i];
      SupplyAt(ps[1..], i - 1, env);
    }
  }
}
