/** The table explorer of the data browser: search, group by schema, order the schemas, sort each group. */
module TableExplorer {
  import opened Sorting

  datatype Table = Table(schema: string, name: string, info: string)

  /** toLowerCase and localeCompare. */
  datatype Locale = Locale(lower: string -> string, le: (string, string) -> bool)

  predicate Includes(s: string, part: string) {
    exists i :: 0 <= i <= |s| && StartsAt(s, i, part)
  }

  predicate StartsAt(s: string, i: nat, part: string)
    requires i <= |s|
  {
    i + |part| <= |s| && s[i..i + |part|] == part
  }

  predicate Matches(loc: Locale, search: string, t: Table) {
    Includes(loc.lower(t.name), loc.lower(search)) || Includes(loc.lower(t.schema), loc.lower(search))
  }

  function Found(loc: Locale, search: string): Table -> bool { t => Matches(loc, search, t) }

  function Filtered(loc: Locale, search: string, tables: seq<Table>): seq<Table> {
    Filter(tables, Found(loc, search))
  }

  function InSchema(tables: seq<Table>, schema: string): seq<Table> {
    Filter(tables, Under(schema))
  }

  function Under(schema: string): Table -> bool { (t: Table) => t.schema == schema }

  /** The comparator of the schema list: `public` first, then by locale. */
  predicate SchemaLe(le: (string, string) -> bool, a: string, b: string) {
    if a == "public" then true else if b == "public" then false else le(a, b)
  }

  predicate NameLe(le: (string, string) -> bool, a: Table, b: Table) { le(a.name, b.name) }

  /** The order the explorer is meant to show: by schema, then by name. */
  predicate TableLe(le: (string, string) -> bool, a: Table, b: Table) {
    if a.schema == b.schema then le(a.name, b.name) else SchemaLe(le, a.schema, b.schema)
  }

  function BySchema(le: (string, string) -> bool): (string, string) -> bool { (a, b) => SchemaLe(le, a, b) }
  function ByName(le: (string, string) -> bool): (Table, Table) -> bool { (a, b) => NameLe(le, a, b) }
  function ByBoth(le: (string, string) -> bool): (Table, Table) -> bool { (a, b) => TableLe(le, a, b) }

  /** `groups` holds, under each schema that occurs, the tables of that schema in their order, and
      `keys` lists those schemas once each. */
  ghost predicate Groups(keys: seq<string>, groups: map<string, seq<Table>>, tables: seq<Table>) {
    && Distinct(keys)
    && (forall schema :: schema in keys <==> schema in groups)
    && Occur(groups.Keys, tables)
    && GroupsAre(groups, tables)
  }

  predicate Distinct<T(==)>(xs: seq<T>) { forall i, j | 0 <= i < j < |xs| :: xs[i] != xs[j] }

  /** The schemas that have a table. */
  ghost predicate Occur(schemas: set<string>, tables: seq<Table>) {
    forall schema :: schema in schemas <==> exists t :: t in tables && t.schema == schema
  }

  predicate GroupsAre(groups: map<string, seq<Table>>, tables: seq<Table>) {
    forall schema | schema in groups :: groups[schema] == InSchema(tables, schema)
  }

  /** Schemas that have a group, each once. */
  predicate Listed(schemas: seq<string>, groups: map<string, seq<Table>>) {
    Distinct(schemas) && forall schema | schema in schemas :: schema in groups
  }

  // What a reader of the display can check.

  /** public comes before all others, which are in the order of their names. */
  predicate SchemasInOrder(le: (string, string) -> bool, schemas: seq<string>) {
    forall i, j | 0 <= i < j < |schemas| && schemas[i] != "public" :: schemas[j] != "public" && le(schemas[i], schemas[j])
  }

  predicate NamesInOrder(le: (string, string) -> bool, ts: seq<Table>) {
    forall i, j | 0 <= i < j < |ts| :: le(ts[i].name, ts[j].name)
  }

  /** Of two tables of different schemas, none or the first in public, the first one's schema comes first; and of two of
      one schema, the first one's name. */
  predicate TablesInOrder(le: (string, string) -> bool, ts: seq<Table>) {
    forall i, j | 0 <= i < j < |ts| ::
      if ts[i].schema == ts[j].schema then le(ts[i].name, ts[j].name)
      else ts[i].schema == "public" || (ts[j].schema != "public" && le(ts[i].schema, ts[j].schema))
  }

  ghost predicate Contains(text: string, part: string) { exists a, b :: text == a + part + b }

  /** The search is in the table's name or in its schema, in any case of letters. */
  ghost predicate IsFound(loc: Locale, search: string, t: Table) {
    Contains(loc.lower(t.name), loc.lower(search)) || Contains(loc.lower(t.schema), loc.lower(search))
  }

  /** Exactly the tables found are shown, each as often as there is one. */
  ghost predicate ShowsFound(loc: Locale, search: string, tables: seq<Table>, shown: seq<Table>) {
    forall t :: multiset(shown)[t] == if IsFound(loc, search, t) then multiset(tables)[t] else 0
  }

  class Explorer {
    const locale: Locale
    var keys: seq<string>                       // Object.keys(tablesBySchema)
    var tablesBySchema: map<string, seq<Table>>

    constructor (locale: Locale)
      ensures this.locale == locale
    {
      this.locale, keys, tablesBySchema := locale, [], map[];
    }

    /** The memoised grouping: filter, then push each table onto its schema's array. */
    method GroupTables(tables: seq<Table>, search: string)
      modifies this
      ensures Groups(keys, tablesBySchema, Filtered(locale, search, tables))
    {
      keys, tablesBySchema := [], map[];
      ghost var seen: seq<Table> := [];
      for i := 0 to |tables|
        invariant seen == Filtered(locale, search, tables[..i])
        invariant Groups(keys, tablesBySchema, seen)
      {
        FilteredNext(locale, search, tables, i);
        if Matches(locale, search, tables[i]) {
          Push(tables[i], seen);
          seen := seen + [tables[i]];
        }
      }
      assert tables[..|tables|] == tables;
    }

    method Push(table: Table, ghost before: seq<Table>)
      requires Groups(keys, tablesBySchema, before)
      modifies this
      ensures Groups(keys, tablesBySchema, before + [table])
    {
      GroupsGrow(keys, tablesBySchema, before, table);
      if table.schema !in tablesBySchema {
        keys := keys + [table.schema];
        tablesBySchema := tablesBySchema[table.schema := []];
      }
      var group := tablesBySchema[table.schema] + [table];
      tablesBySchema := tablesBySchema[table.schema := group];
      assert tablesBySchema == old(tablesBySchema)[table.schema := group];
    }

    /** The order in which the groups are shown. */
    method Schemas() returns (schemas: seq<string>)
      ensures schemas == Sort(keys, BySchema(locale.le))
      ensures |schemas| == |keys| && forall schema :: schema in schemas <==> schema in keys
      ensures TotalOrder(locale.le) ==> SchemasInOrder(locale.le, schemas)
    {
      schemas := Sort(keys, BySchema(locale.le));
      SortMembers(keys, BySchema(locale.le));
      if TotalOrder(locale.le) {
        SchemasAreInOrder(locale.le, keys);
      }
    }

    /** Rendering an expanded group sorts its array in place; the other groups stay as they are. */
    method ShowGroup(schema: string) returns (shown: seq<Table>)
      requires schema in tablesBySchema
      modifies this`tablesBySchema
      ensures shown == Sort(old(tablesBySchema)[schema], ByName(locale.le))
      ensures tablesBySchema == old(tablesBySchema)[schema := shown]
      ensures TotalOrder(locale.le) ==>
                NamesInOrder(locale.le, shown) && multiset(shown) == multiset(old(tablesBySchema)[schema])
    {
      if TotalOrder(locale.le) {
        GroupIsInOrder(locale.le, tablesBySchema[schema]);
      }
      tablesBySchema := tablesBySchema[schema := Sort(tablesBySchema[schema], ByName(locale.le))];
      shown := tablesBySchema[schema];
    }

    /** Several groups expanded, read from top to bottom. */
    method ShowGroups(schemas: seq<string>) returns (shown: seq<Table>)
      requires Listed(schemas, tablesBySchema)
      modifies this`tablesBySchema
      ensures shown == Flat(locale.le, schemas, old(tablesBySchema))
      ensures tablesBySchema == SortedIn(locale.le, old(tablesBySchema), schemas)
    {
      ghost var groups := tablesBySchema;
      shown := [];
      for i := 0 to |schemas|
        invariant tablesBySchema == SortedIn(locale.le, groups, schemas[..i])
        invariant shown == Flat(locale.le, schemas[..i], groups)
      {
        ShowNext(locale.le, groups, schemas, i);
        var group := ShowGroup(schemas[i]);
        shown := shown + group;
      }
      assert schemas[..|schemas|] == schemas;
    }

    /** All groups expanded. */
    method ShowAll() returns (shown: seq<Table>)
      requires Listed(keys, tablesBySchema)
      modifies this`tablesBySchema
      ensures shown == Display(locale.le, old(keys), old(tablesBySchema))
      ensures tablesBySchema == SortedIn(locale.le, old(tablesBySchema), Sort(keys, BySchema(locale.le)))
    {
      var schemas := Schemas();
      SortedKeysAreKeys(locale.le, keys);
      shown := ShowGroups(schemas);
    }

    /** What a user sees for a search with every group open. */
    method Explore(tables: seq<Table>, search: string) returns (shown: seq<Table>)
      requires TotalOrder(locale.le)
      modifies this
      ensures StableSort(shown, Filtered(locale, search, tables), ByBoth(locale.le))
      ensures shown == Sort(Filtered(locale, search, tables), ByBoth(locale.le))
      ensures TablesInOrder(locale.le, shown) && ShowsFound(locale, search, tables, shown)
    {
      WhatIsShown(locale, search, tables);
      GroupTables(tables, search);
      DisplayIsOneSort(locale.le, keys, tablesBySchema, Filtered(locale, search, tables));
      shown := ShowAll();
    }
  }

  lemma SchemasAreInOrder(le: (string, string) -> bool, keys: seq<string>)
    requires TotalOrder(le)
    ensures SchemasInOrder(le, Sort(keys, BySchema(le)))
  {
    OrdersAreTotal(le);
    SortIsStable(keys, BySchema(le));
    var schemas := Sort(keys, BySchema(le));
    forall i, j | 0 <= i < j < |schemas| && schemas[i] != "public"
      ensures schemas[j] != "public" && le(schemas[i], schemas[j])
    {
      assert BySchema(le)(schemas[i], schemas[j]);
    }
  }

  lemma GroupIsInOrder(le: (string, string) -> bool, group: seq<Table>)
    requires TotalOrder(le)
    ensures NamesInOrder(le, Sort(group, ByName(le))) && multiset(Sort(group, ByName(le))) == multiset(group)
  {
    OrdersAreTotal(le);
    SortIsStable(group, ByName(le));
    StableSortKeepsAll(Sort(group, ByName(le)), group, ByName(le));
    var shown := Sort(group, ByName(le));
    forall i, j | 0 <= i < j < |shown| ensures le(shown[i].name, shown[j].name) {
      assert ByName(le)(shown[i], shown[j]);
    }
  }

  lemma IncludesIff(text: string, part: string)
    ensures Includes(text, part) <==> Contains(text, part)
  {
    if Includes(text, part) {
      var i :| 0 <= i <= |text| && StartsAt(text, i, part);
      assert text == text[..i] + part + text[i + |part|..];
    }
    if Contains(text, part) {
      var a, b :| text == a + part + b;
      assert text[|a|..|a| + |part|] == part;
      assert StartsAt(text, |a|, part);
    }
  }

  lemma {:induction false} FilterCount<T>(xs: seq<T>, p: T -> bool, x: T)
    ensures multiset(Filter(xs, p))[x] == if p(x) then multiset(xs)[x] else 0
  {
    if xs != [] {
      FilterCount(xs[..|xs| - 1], p, x);
      assert xs == xs[..|xs| - 1] + [xs[|xs| - 1]];
    }
  }

  /** What a search shows: the tables found and no others, public first, by schema and then by name. */
  lemma WhatIsShown(loc: Locale, search: string, tables: seq<Table>)
    requires TotalOrder(loc.le)
    ensures var shown := Sort(Filtered(loc, search, tables), ByBoth(loc.le));
      TablesInOrder(loc.le, shown) && ShowsFound(loc, search, tables, shown)
  {
    var found := Filtered(loc, search, tables);
    var shown := Sort(found, ByBoth(loc.le));
    OrdersAreTotal(loc.le);
    SortIsStable(found, ByBoth(loc.le));
    StableSortKeepsAll(shown, found, ByBoth(loc.le));
    forall i, j | 0 <= i < j < |shown|
      ensures if shown[i].schema == shown[j].schema then loc.le(shown[i].name, shown[j].name)
              else shown[i].schema == "public" || (shown[j].schema != "public" && loc.le(shown[i].schema, shown[j].schema))
    {
      assert ByBoth(loc.le)(shown[i], shown[j]);
    }
    forall t ensures multiset(shown)[t] == if IsFound(loc, search, t) then multiset(tables)[t] else 0 {
      FilterCount(tables, Found(loc, search), t);
      IncludesIff(loc.lower(t.name), loc.lower(search));
      IncludesIff(loc.lower(t.schema), loc.lower(search));
    }
  }

  /** Rendering a group again shows it as before: sorting it in place the first time changed nothing that a
      second rendering would show. */
  lemma ShownAgain(le: (string, string) -> bool, group: seq<Table>)
    requires TotalOrder(le)
    ensures Sort(Sort(group, ByName(le)), ByName(le)) == Sort(group, ByName(le))
  {
    OrdersAreTotal(le);
    SortTwice(group, ByName(le));
  }

  lemma FilteredNext(loc: Locale, search: string, tables: seq<Table>, i: nat)
    requires i < |tables|
    ensures Filtered(loc, search, tables[..i + 1]) ==
            Filtered(loc, search, tables[..i]) + (if Matches(loc, search, tables[i]) then [tables[i]] else [])
  {
    FilterNext(tables, i, Found(loc, search));
  }

  /** One table more: its group gets it at the end, or is created for it. */
  lemma GroupsGrow(keys: seq<string>, groups: map<string, seq<Table>>, tables: seq<Table>, t: Table)
    requires Groups(keys, groups, tables)
    ensures var keys' := if t.schema in groups then keys else keys + [t.schema];
            var before := if t.schema in groups then groups[t.schema] else [];
            Groups(keys', groups[t.schema := before + [t]], tables + [t])
  {
    var before := if t.schema in groups then groups[t.schema] else [];
    if t.schema !in groups {
      FilterNone(tables, Under(t.schema));
    }
    GroupGrows(groups, tables, t);
    SchemasGrow(groups.Keys, tables, t);
    KeysGrow(keys, groups, t.schema, before + [t]);
  }

  lemma KeysGrow(keys: seq<string>, groups: map<string, seq<Table>>, schema: string, group: seq<Table>)
    requires Distinct(keys) && forall s :: s in keys <==> s in groups
    ensures var keys' := if schema in groups then keys else keys + [schema];
      && Distinct(keys') && (forall s :: s in keys' <==> s in groups[schema := group])
      && groups[schema := group].Keys == groups.Keys + {schema}
  {
  }

  lemma GroupGrows(groups: map<string, seq<Table>>, tables: seq<Table>, t: Table)
    requires GroupsAre(groups, tables)
    requires t.schema !in groups ==> InSchema(tables, t.schema) == []
    ensures GroupsAre(groups[t.schema := (if t.schema in groups then groups[t.schema] else []) + [t]], tables + [t])
  {
    assert (tables + [t])[..|tables|] == tables;
  }

  lemma SchemasGrow(schemas: set<string>, tables: seq<Table>, t: Table)
    requires Occur(schemas, tables)
    ensures Occur(schemas + {t.schema}, tables + [t])
  {
    forall s ensures s in schemas + {t.schema} <==> exists u :: u in tables + [t] && u.schema == s {
      if s == t.schema {
        assert t in tables + [t];
      } else if s in schemas {
        var u :| u in tables && u.schema == s;
        assert u in tables + [t];
      }
    }
  }

  /** The groups after some schemas have been shown: theirs are sorted, the others are as before. */
  function SortedIn(le: (string, string) -> bool, groups: map<string, seq<Table>>, schemas: seq<string>): map<string, seq<Table>> {
    if schemas == [] then groups
    else
      var last := schemas[|schemas| - 1];
      SortedIn(le, groups, schemas[..|schemas| - 1])[last := Shown(le, groups, last)]
  }

  lemma {:induction false} SortedInLeaves(le: (string, string) -> bool, groups: map<string, seq<Table>>, schemas: seq<string>, schema: string)
    requires schema in groups && schema !in schemas
    ensures schema in SortedIn(le, groups, schemas) && SortedIn(le, groups, schemas)[schema] == groups[schema]
  {
    if schemas != [] {
      assert schemas[|schemas| - 1] in schemas;
      SortedInLeaves(le, groups, schemas[..|schemas| - 1], schema);
    }
  }

  /** Showing one more group. */
  lemma ShowNext(le: (string, string) -> bool, groups: map<string, seq<Table>>, schemas: seq<string>, i: nat)
    requires i < |schemas| && Listed(schemas, groups)
    ensures var before := SortedIn(le, groups, schemas[..i]);
      && schemas[i] in before
      && SortedIn(le, groups, schemas[..i + 1]) == before[schemas[i] := Sort(before[schemas[i]], ByName(le))]
      && Flat(le, schemas[..i + 1], groups) == Flat(le, schemas[..i], groups) + Sort(before[schemas[i]], ByName(le))
  {
    assert schemas[..i + 1][..i] == schemas[..i];
    assert schemas[i] in schemas && schemas[i] !in schemas[..i];
    SortedInLeaves(le, groups, schemas[..i], schemas[i]);
  }

  // ---------------------------------------------------------------- what is displayed

  /** Groups one below the other, each sorted by name. */
  function Flat(le: (string, string) -> bool, schemas: seq<string>, groups: map<string, seq<Table>>): seq<Table> {
    if schemas == [] then []
    else Flat(le, schemas[..|schemas| - 1], groups) + Shown(le, groups, schemas[|schemas| - 1])
  }

  function Shown(le: (string, string) -> bool, groups: map<string, seq<Table>>, schema: string): seq<Table> {
    if schema in groups then Sort(groups[schema], ByName(le)) else []
  }

  function Display(le: (string, string) -> bool, keys: seq<string>, groups: map<string, seq<Table>>): seq<Table> {
    Flat(le, Sort(keys, BySchema(le)), groups)
  }

  lemma OrdersAreTotal(le: (string, string) -> bool)
    requires TotalOrder(le)
    ensures TotalOrder(BySchema(le)) && TotalPreorder(ByName(le)) && TotalPreorder(ByBoth(le))
  {
  }

  lemma {:induction false} SortMembers<T>(xs: seq<T>, le: (T, T) -> bool)
    ensures forall x :: x in Sort(xs, le) <==> x in xs
    ensures |Sort(xs, le)| == |xs|
  {
    if xs != [] {
      SortMembers(xs[..|xs| - 1], le);
      InsertMembers(Sort(xs[..|xs| - 1], le), xs[|xs| - 1], le);
      InsertLength(Sort(xs[..|xs| - 1], le), xs[|xs| - 1], le);
      assert xs == xs[..|xs| - 1] + [xs[|xs| - 1]];
    }
  }

  lemma {:induction false} InsertLength<T>(ys: seq<T>, x: T, le: (T, T) -> bool)
    ensures |Insert(ys, x, le)| == |ys| + 1
  {
    if ys != [] && !le(ys[|ys| - 1], x) {
      InsertLength(ys[..|ys| - 1], x, le);
    }
  }

  lemma {:induction false} InsertDistinct<T>(ys: seq<T>, x: T, le: (T, T) -> bool)
    requires Distinct(ys) && x !in ys
    ensures Distinct(Insert(ys, x, le))
  {
    if ys != [] && !le(ys[|ys| - 1], x) {
      var init, last := ys[..|ys| - 1], ys[|ys| - 1];
      assert x !in init && last !in init;
      InsertDistinct(init, x, le);
      InsertMembers(init, x, le);
      assert last !in Insert(init, x, le);
    }
  }

  /** Sorting the keys permutes them. */
  lemma {:induction false} SortedKeysAreKeys(le: (string, string) -> bool, keys: seq<string>)
    requires Distinct(keys)
    ensures Distinct(Sort(keys, BySchema(le)))
    ensures forall k :: k in Sort(keys, BySchema(le)) <==> k in keys
  {
    SortMembers(keys, BySchema(le));
    if keys != [] {
      SortedKeysAreKeys(le, keys[..|keys| - 1]);
      InsertDistinct(Sort(keys[..|keys| - 1], BySchema(le)), keys[|keys| - 1], BySchema(le));
    }
  }

  lemma ShownMembers(le: (string, string) -> bool, groups: map<string, seq<Table>>, tables: seq<Table>, schema: string)
    requires GroupsAre(groups, tables)
    ensures forall t | t in Shown(le, groups, schema) :: t.schema == schema
  {
    if schema in groups {
      SortMembers(groups[schema], ByName(le));
      FilterMembers(tables, Under(schema));
    }
  }

  /** Every table shown under a list of schemas belongs to one of them. */
  lemma {:induction false} FlatMembers(le: (string, string) -> bool, schemas: seq<string>, groups: map<string, seq<Table>>, tables: seq<Table>)
    requires GroupsAre(groups, tables)
    ensures forall t | t in Flat(le, schemas, groups) :: t.schema in schemas
  {
    if schemas != [] {
      var init, last := schemas[..|schemas| - 1], schemas[|schemas| - 1];
      FlatMembers(le, init, groups, tables);
      ShownMembers(le, groups, tables, last);
      assert schemas == init + [last];
    }
  }

  lemma ShownSorted(le: (string, string) -> bool, groups: map<string, seq<Table>>, tables: seq<Table>, schema: string)
    requires TotalOrder(le) && GroupsAre(groups, tables)
    ensures SortedBy(Shown(le, groups, schema), ByBoth(le))
  {
    ShownMembers(le, groups, tables, schema);
    if schema in groups {
      var shown := Shown(le, groups, schema);
      OrdersAreTotal(le);
      SortIsStable(groups[schema], ByName(le));
      forall i, j | 0 <= i < j < |shown| ensures ByBoth(le)(shown[i], shown[j]) {
        assert shown[i] in shown && shown[j] in shown && ByName(le)(shown[i], shown[j]);
      }
    }
  }

  /** An earlier schema's tables come before a later one's. */
  lemma SchemasSeparate(le: (string, string) -> bool, schemas: seq<string>, a: Table, b: Table)
    requires schemas != [] && SortedBy(schemas, BySchema(le)) && Distinct(schemas)
    requires a.schema in schemas[..|schemas| - 1] && b.schema == schemas[|schemas| - 1]
    ensures ByBoth(le)(a, b)
  {
    var k :| 0 <= k < |schemas| - 1 && schemas[k] == a.schema;
    assert schemas[k] != schemas[|schemas| - 1] && BySchema(le)(schemas[k], schemas[|schemas| - 1]);
  }

  lemma {:induction false} FlatSorted(le: (string, string) -> bool, schemas: seq<string>, groups: map<string, seq<Table>>, tables: seq<Table>)
    requires TotalOrder(le) && GroupsAre(groups, tables)
    requires Distinct(schemas) && SortedBy(schemas, BySchema(le))
    ensures SortedBy(Flat(le, schemas, groups), ByBoth(le))
  {
    if schemas != [] {
      var init, last := schemas[..|schemas| - 1], schemas[|schemas| - 1];
      var front, back := Flat(le, init, groups), Shown(le, groups, last);
      FlatSorted(le, init, groups, tables);
      ShownSorted(le, groups, tables, last);
      forall x, y | x in front && y in back ensures ByBoth(le)(x, y) {
        FlatMembers(le, init, groups, tables);
        ShownMembers(le, groups, tables, last);
        SchemasSeparate(le, schemas, x, y);
      }
      SortedConcat(front, back, ByBoth(le));
    }
  }

  /** Within one schema, ties by both keys are ties by name. */
  lemma GroupTies(le: (string, string) -> bool, tables: seq<Table>, schema: string, v: Table)
    requires TotalOrder(le)
    ensures Ties(Sort(InSchema(tables, schema), ByName(le)), ByBoth(le), v) ==
            if v.schema == schema then Ties(tables, ByBoth(le), v) else []
  {
    var group := InSchema(tables, schema);
    var sorted := Sort(group, ByName(le));
    OrdersAreTotal(le);
    SortMembers(group, ByName(le));
    FilterMembers(tables, Under(schema));
    if v.schema == schema {
      SortIsStable(group, ByName(le));
      assert Ties(sorted, ByName(le), v) == Ties(group, ByName(le), v);
      FilterCongruent(sorted, Tie(ByBoth(le), v), Tie(ByName(le), v));
      FilterTwice(tables, Under(schema), Tie(ByName(le), v));
      TiesAgree(le, tables, schema, v);
    } else {
      FilterNone(sorted, Tie(ByBoth(le), v));
    }
  }

  lemma TiesAgree(le: (string, string) -> bool, tables: seq<Table>, schema: string, v: Table)
    requires TotalOrder(le) && v.schema == schema
    ensures Filter(tables, Both(Under(schema), Tie(ByName(le), v))) == Ties(tables, ByBoth(le), v)
  {
    OrdersAreTotal(le);
    forall x ensures Both(Under(schema), Tie(ByName(le), v))(x) == Tie(ByBoth(le), v)(x) {
      if x.schema != schema {
        assert !(SchemaLe(le, x.schema, v.schema) && SchemaLe(le, v.schema, x.schema));
      }
    }
    FilterCongruent(tables, Both(Under(schema), Tie(ByName(le), v)), Tie(ByBoth(le), v));
  }

  lemma {:induction false} FlatTies(le: (string, string) -> bool, schemas: seq<string>, groups: map<string, seq<Table>>, tables: seq<Table>, v: Table)
    requires TotalOrder(le) && Distinct(schemas)
    requires GroupsAre(groups, tables)
    ensures Ties(Flat(le, schemas, groups), ByBoth(le), v) ==
            if v.schema in schemas && v.schema in groups then Ties(tables, ByBoth(le), v) else []
  {
    if schemas != [] {
      var init, last := schemas[..|schemas| - 1], schemas[|schemas| - 1];
      FlatTies(le, init, groups, tables, v);
      ShownTies(le, groups, tables, last, v);
      FilterConcat(Flat(le, init, groups), Shown(le, groups, last), Tie(ByBoth(le), v));
      LastIsNew(schemas);
    }
  }

  lemma LastIsNew(schemas: seq<string>)
    requires schemas != [] && Distinct(schemas)
    ensures schemas[|schemas| - 1] !in schemas[..|schemas| - 1]
    ensures forall s :: s in schemas <==> s in schemas[..|schemas| - 1] || s == schemas[|schemas| - 1]
  {
    assert schemas == schemas[..|schemas| - 1] + [schemas[|schemas| - 1]];
  }

  lemma ShownTies(le: (string, string) -> bool, groups: map<string, seq<Table>>, tables: seq<Table>, schema: string, v: Table)
    requires TotalOrder(le) && GroupsAre(groups, tables)
    ensures Ties(Shown(le, groups, schema), ByBoth(le), v) ==
            if v.schema == schema && schema in groups then Ties(tables, ByBoth(le), v) else []
  {
    if schema in groups {
      GroupTies(le, tables, schema, v);
    }
  }

  lemma OtherSchemasDoNotTie(le: (string, string) -> bool, tables: seq<Table>, v: Table)
    requires TotalOrder(le) && forall x | x in tables :: x.schema != v.schema
    ensures Ties(tables, ByBoth(le), v) == []
  {
    forall x | x in tables ensures !Tie(ByBoth(le), v)(x) {
      assert !(SchemaLe(le, x.schema, v.schema) && SchemaLe(le, v.schema, x.schema));
    }
    FilterNone(tables, Tie(ByBoth(le), v));
  }

  /** Grouping, ordering the schemas and sorting each group amount to one stable sort of the tables that
      match the search, by schema and then name. Being stable, it is the only such sequence. */
  lemma DisplayIsOneSort(le: (string, string) -> bool, keys: seq<string>, groups: map<string, seq<Table>>, tables: seq<Table>)
    requires TotalOrder(le) && Groups(keys, groups, tables)
    ensures StableSort(Display(le, keys, groups), tables, ByBoth(le))
    ensures multiset(Display(le, keys, groups)) == multiset(tables)
    ensures Display(le, keys, groups) == Sort(tables, ByBoth(le))
  {
    var schemas := Sort(keys, BySchema(le));
    var shown := Display(le, keys, groups);
    OrdersAreTotal(le);
    SortedKeysAreKeys(le, keys);
    SortIsStable(keys, BySchema(le));
    FlatSorted(le, schemas, groups, tables);
    forall v ensures Ties(shown, ByBoth(le), v) == Ties(tables, ByBoth(le), v) {
      FlatTies(le, schemas, groups, tables, v);
      if v.schema !in groups {
        OtherSchemasDoNotTie(le, tables, v);
      }
    }
    StableSortKeepsAll(shown, tables, ByBoth(le));
    SortIsStable(tables, ByBoth(le));
    StableSortUnique(shown, Sort(tables, ByBoth(le)), ByBoth(le));
  }

  /** No group is empty. */
  lemma NoEmptyGroup(keys: seq<string>, groups: map<string, seq<Table>>, tables: seq<Table>, schema: string)
    requires Groups(keys, groups, tables) && schema in groups
    ensures groups[schema] != [] && forall t | t in groups[schema] :: t.schema == schema && t in tables
  {
    FilterMembers(tables, Under(schema));
    var t :| t in tables && t.schema == schema;
    assert t in InSchema(tables, schema);
  }
}
