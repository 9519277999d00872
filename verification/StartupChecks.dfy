/** The two checks run when the agent is built: no table in use is unclassified, and
    no table classified as person-free has an unapproved link to person. */
module StartupChecks {
  import opened Wrappers
  import opened Sql
  import opened SqlGuard
  import opened ScopeIdempotence

  // ----- assert_tables_classified -----

  /** The tables in use that no classification set lists. */
  function UnclassifiedTables(included: seq<string>): set<string> {
    (set t | t in included) - ALL_CLASSIFIED_TABLES
  }

  predicate TablesClassified(included: seq<string>) {
    UnclassifiedTables(included) == {}
  }

  predicate TablesFrom(q: Query, included: seq<string>) {
    forall s, t | s in SelectsQ(q) && s.Select? && t in SelectTables(s.from) :: t.name in included
  }

  lemma ClassifiedIs(table: string)
    ensures table in ALL_CLASSIFIED_TABLES <==> Classify(table) != Unclassified
  {
  }

  function CountRows(table: string): Query {
    Select(Count(None, "count"), Join(Nothing, Inner, Table(table, table), None), None)
  }

  lemma CountRowsParts(table: string)
    ensures SelectsQ(CountRows(table)) == {CountRows(table)} && DirectCols(CountRows(table)) == {}
    ensures SelectTables(CountRows(table).from) == [TableRef(table, table)]
    ensures StarsPassQ(CountRows(table), false)
  {
    var q := CountRows(table);
    assert SelectsF(Nothing) == {} && SelectsO(None) == {};
    assert SelectsF(q.from) == {};
    assert OnCols(Nothing) == {} && OptCols(None) == {};
    assert StarsPassF(Nothing, false) && StarsPassO(None, false);
    assert StarsPassF(q.from, false);
    assert SelectTables(Nothing) == [];
  }

  /** The guard rejects counting an unclassified table for a restricted requester. */
  lemma CountRejected(table: string, ctx: Option<Context>)
    requires Restricted(ctx) && Classify(table) == Unclassified
    ensures Guard(CountRows(table), ctx) == Err(UnclassifiedTable)
  {
    CountRowsParts(table);
    assert TableRef(table, table) in SelectTables(CountRows(table).from);
  }

  lemma IncludedIsClassified(q: Query, included: seq<string>)
    requires TablesClassified(included) && TablesFrom(q, included)
    ensures AllClassified(SelectsQ(q))
  {
    forall s, t | s in SelectsQ(q) && s.Select? && t in SelectTables(s.from)
      ensures Classify(t.name) != Unclassified
    {
      ClassifiedIs(t.name);
      assert t.name !in UnclassifiedTables(included);
    }
  }

  /** The startup check is exact: it passes just when no restricted requester's query
      over the tables in use can be rejected for an unclassified table. */
  lemma StartupCheckExact(included: seq<string>, ctx: Option<Context>)
    requires Restricted(ctx)
    ensures TablesClassified(included)
       <==> forall q | TablesFrom(q, included) :: Guard(q, ctx) != Err(UnclassifiedTable)
  {
    if TablesClassified(included) {
      forall q | TablesFrom(q, included) ensures Guard(q, ctx) != Err(UnclassifiedTable) {
        IncludedIsClassified(q, included);
      }
    } else {
      var t :| t in UnclassifiedTables(included);
      ClassifiedIs(t);
      CountRejected(t, ctx);
      CountRowsParts(t);
      assert TablesFrom(CountRows(t), included);
    }
  }

  /** What the guard returns for a restricted requester, injected subqueries included,
      names classified tables only. */
  lemma AcceptedIsClassified(q: Query, ctx: Option<Context>)
    requires Restricted(ctx) && Guard(q, ctx).Ok?
    ensures forall s, t | s in SelectsQ(Guard(q, ctx).value) && s.Select? && t in SelectTables(s.from) ::
              t.name in ALL_CLASSIFIED_TABLES
  {
    ClassifiedRewrite(q, ctx.value.personId);
    forall s, t | s in SelectsQ(Guard(q, ctx).value) && s.Select? && t in SelectTables(s.from)
      ensures t.name in ALL_CLASSIFIED_TABLES
    {
      ClassifiedIs(t.name);
    }
  }

  // ----- assert_person_free_tables_have_no_person_fk -----

  /** A reflected column, and the tables its foreign keys point into. */
  datatype Column = Column(name: string, references: seq<string>)

  type Metadata = map<string, seq<Column>>

  const APPROVED_PERSON_FK_EXCEPTIONS: set<(string, string)> := {("team", "lead_id")}

  predicate PersonLink(table: string, col: Column) {
    (table, col.name) !in APPROVED_PERSON_FK_EXCEPTIONS && (col.name == "person_id" || "person" in col.references)
  }

  /** The table is present and some column of it is an unapproved person link. */
  predicate Suspect(table: string, metadata: Metadata) {
    table in metadata && exists i :: 0 <= i < |metadata[table]| && PersonLink(table, metadata[table][i])
  }

  /** The suspects among `names`, in the same order. */
  function Suspects(names: seq<string>, metadata: Metadata): seq<string> {
    if names == [] then []
    else
      var before := Suspects(names[..|names| - 1], metadata);
      if Suspect(names[|names| - 1], metadata) then before + [names[|names| - 1]] else before
  }

  lemma SuspectsMember(names: seq<string>, metadata: Metadata, table: string)
    ensures table in Suspects(names, metadata) <==> table in names && Suspect(table, metadata)
  {
    if names != [] {
      SuspectsMember(names[..|names| - 1], metadata, table);
      assert names == names[..|names| - 1] + [names[|names| - 1]];
    }
  }

  /** `names` lists the person-free tables in use, each once (in sorted order). */
  ghost predicate InUsePersonFree(names: seq<string>, included: seq<string>) {
    && (forall t :: t in names <==> t in included && t in PERSON_FREE_TABLES)
    && (forall i, j :: 0 <= i < j < |names| ==> names[i] != names[j])
  }

  method CollectSuspects(metadata: Metadata, names: seq<string>) returns (suspects: seq<string>)
    ensures suspects == Suspects(names, metadata)
  {
    suspects := [];
    for i := 0 to |names|
      invariant suspects == Suspects(names[..i], metadata)
    {
      var name := names[i];
      assert names[..i + 1][..i] == names[..i] && names[..i + 1][i] == name;
      if name !in metadata {
        continue;
      }
      var columns := metadata[name];
      var k := 0;
      while k < |columns|
        invariant 0 <= k <= |columns|
        invariant suspects == Suspects(names[..i], metadata)
        invariant forall j :: 0 <= j < k ==> !PersonLink(name, columns[j])
      {
        var col := columns[k];
        k := k + 1;
        if (name, col.name) in APPROVED_PERSON_FK_EXCEPTIONS {
          continue;
        }
        var hasPersonFk := "person" in col.references;
        if col.name == "person_id" || hasPersonFk {
          assert PersonLink(name, columns[k - 1]);
          suspects := suspects + [name];
          break;
        }
      }
    }
    assert names[..|names|] == names;
  }

  /** The check passes exactly when every column of every person-free table in use is
      either approved or neither called person_id nor a foreign key into person. */
  method PersonFreeTablesHaveNoPersonFk(metadata: Metadata, included: seq<string>, names: seq<string>)
    returns (ok: bool)
    requires InUsePersonFree(names, included)
    ensures ok <==> forall t, col | t in included && t in PERSON_FREE_TABLES && t in metadata && col in metadata[t] ::
                      (t == "team" && col.name == "lead_id") || (col.name != "person_id" && "person" !in col.references)
  {
    var suspects := CollectSuspects(metadata, names);
    ok := suspects == [];
    if ok {
      forall t, col | t in included && t in PERSON_FREE_TABLES && t in metadata && col in metadata[t]
        ensures !PersonLink(t, col)
      {
        SuspectsMember(names, metadata, t);
        var i :| 0 <= i < |metadata[t]| && metadata[t][i] == col;
      }
    } else {
      SuspectsMember(names, metadata, suspects[0]);
      var t := suspects[0];
      assert t in included && t in PERSON_FREE_TABLES && t in metadata;
      var i :| 0 <= i < |metadata[t]| && PersonLink(t, metadata[t][i]);
      assert metadata[t][i] in metadata[t];
    }
  }
}
