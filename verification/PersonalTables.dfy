/** The ERP's tables by name: which rows of each one a requester's share has. */
module PersonalTables {
  import opened Wrappers
  import opened Sql
  import opened SqlGuard
  import opened OwnRows

  /** Tables with a `person_id`. */
  predicate HasPersonId(table: string) {
    || table == "person_team" || table == "leave_record" || table == "person_week_log"
    || table == "person_competency" || table == "person_skill_category" || table == "users_personresignation"
    || table == "core_personstatushistory" || table == "core_personemploymenthistory"
    || table == "core_personemploymenttypehistory" || table == "person_leave_limit" || table == "job_requisition"
  }

  /** Tables with a `person_team_id`. */
  predicate HasPersonTeamId(table: string) {
    table == "person_week_project" || table == "annual_review_response"
  }

  /** Tables that hold nobody's records. */
  predicate Lookup(table: string) {
    || table == "department" || table == "team" || table == "designation" || table == "employment_type"
    || table == "leave_type" || table == "leave_limit" || table == "holiday_record" || table == "competency_role"
    || table == "competency" || table == "competency_level" || table == "skill_category" || table == "available_time"
  }

  lemma PersonIdIs(table: string)
    ensures HasPersonId(table) <==> table in PERSON_FK_TABLES
  {
  }

  lemma LookupIs(table: string)
    ensures Lookup(table) <==> table in PERSON_FREE_TABLES
  {
  }

  lemma LinksAreApart(table: string)
    ensures HasPersonId(table) ==> table != "person" && !HasPersonTeamId(table)
    ensures HasPersonTeamId(table) ==> table != "person"
  {
    assert "person_team"[6] == '_';
  }

  lemma FirstLookups(table: string)
    requires table == "department" || table == "team" || table == "designation" || table == "employment_type"
             || table == "leave_type" || table == "leave_limit"
    ensures table != "person" && !HasPersonId(table) && !HasPersonTeamId(table)
  {
  }

  lemma LookupsAreApart(table: string)
    requires Lookup(table)
    ensures table != "person" && !HasPersonId(table) && !HasPersonTeamId(table)
  {
    if table == "department" || table == "team" || table == "designation" || table == "employment_type"
       || table == "leave_type" || table == "leave_limit" {
      FirstLookups(table);
    }
  }

  /** What the injector takes a table for. */
  lemma KindIs(table: string)
    ensures Classify(table) == if table == "person" then Person
                               else if HasPersonId(table) then PersonFk
                               else if HasPersonTeamId(table) then PersonTeamFk
                               else if Lookup(table) then PersonFree
                               else Unclassified
  {
    PersonIdIs(table);
    LookupIs(table);
    assert HasPersonTeamId(table) <==> table in PERSON_TEAM_FK_TABLES;
  }

  lemma KindOf(table: string)
    ensures HasPersonId(table) ==> Classify(table) == PersonFk
    ensures HasPersonTeamId(table) ==> Classify(table) == PersonTeamFk
    ensures Lookup(table) ==> Classify(table) == PersonFree
  {
    KindIs(table);
    LinksAreApart(table);
    if Lookup(table) {
      LookupsAreApart(table);
    }
  }

  // ----- Shares -----

  /** The rows that satisfy a condition, in their order. */
  ghost function Only(rows: seq<Row>, mine: Row -> bool): seq<Row> {
    if rows == [] then []
    else if mine(rows[0]) then [rows[0]] + Only(rows[1..], mine)
    else Only(rows[1..], mine)
  }

  lemma OwnIsOnly(table: string, rows: seq<Row>, who: Option<int>, db: Db, mine: Row -> bool)
    requires forall r :: mine(r) <==> OwnRow(table, r, who, db)
    ensures Own(table, rows, who, db) == Only(rows, mine)
  {
    if rows != [] {
      OwnIsOnly(table, rows[1..], who, db, mine);
    }
  }

  /** The value stored in the column; NULL if the table has no such column. */
  function Cell(db: Db, table: string, row: Row, col: string): Value {
    if table in db.schema && col in db.schema[table] && col in row then row[col] else Null
  }

  /** The id is that of some person_team row of this person. */
  ghost predicate TeamOf(db: Db, team: Value, x: int) {
    team != Null && "person_team" in db.data
    && exists r :: r in db.data["person_team"] && Cell(db, "person_team", r, "person_id") == Int(x)
                && Cell(db, "person_team", r, "id") == team
  }

  lemma TeamOfIs(db: Db, team: Value, x: int)
    ensures TeamOf(db, team, x) <==> OwnTeam(db, team, x)
  {
    var rows := TableRows(db, "person_team");
    if TeamOf(db, team, x) {
      var r :|
        r in rows && Cell(db, "person_team", r, "person_id") == Int(x) && Cell(db, "person_team", r, "id") == team;
      var i :| 0 <= i < |rows| && rows[i] == r;
      assert Stored(db, "person_team", rows[i], "id") == team;
    }
    if OwnTeam(db, team, x) {
      var i :| 0 <= i < |rows| && Stored(db, "person_team", rows[i], "person_id") == Int(x)
            && Stored(db, "person_team", rows[i], "id") == team && team != Null;
      assert Cell(db, "person_team", rows[i], "id") == team;
    }
  }

  lemma OwnIsAll(table: string, rows: seq<Row>, who: Option<int>, db: Db)
    requires forall r :: OwnRow(table, r, who, db)
    ensures Own(table, rows, who, db) == rows
  {
    if rows != [] {
      OwnIsAll(table, rows[1..], who, db);
    }
  }

  lemma OwnIsNone(table: string, rows: seq<Row>, db: Db)
    requires forall r :: !OwnRow(table, r, None, db)
    ensures Own(table, rows, None, db) == []
  {
    if rows != [] {
      OwnIsNone(table, rows[1..], db);
    }
  }

  lemma PersonShare(db: Db, x: int, table: string)
    requires table in db.data && Classify(table) == Person
    ensures Restrict(db, Some(x)).data[table] == Only(db.data[table], r => Cell(db, table, r, "id") == Int(x))
  {
    OwnIsOnly(table, db.data[table], Some(x), db, r => Cell(db, table, r, "id") == Int(x));
  }

  lemma PersonIdShare(db: Db, x: int, table: string)
    requires table in db.data && Classify(table) == PersonFk
    ensures Restrict(db, Some(x)).data[table] == Only(db.data[table], r => Cell(db, table, r, "person_id") == Int(x))
  {
    OwnIsOnly(table, db.data[table], Some(x), db, r => Cell(db, table, r, "person_id") == Int(x));
  }

  lemma PersonTeamShare(db: Db, x: int, table: string)
    requires table in db.data && Classify(table) == PersonTeamFk
    ensures Restrict(db, Some(x)).data[table]
         == Only(db.data[table], r => TeamOf(db, Cell(db, table, r, "person_team_id"), x))
  {
    forall r ensures TeamOf(db, Cell(db, table, r, "person_team_id"), x) <==> OwnRow(table, r, Some(x), db) {
      TeamOfIs(db, Cell(db, table, r, "person_team_id"), x);
    }
    OwnIsOnly(table, db.data[table], Some(x), db, r => TeamOf(db, Cell(db, table, r, "person_team_id"), x));
  }

  /** A requester's share of each table: of `person` the rows with their id, of the tables
      with a person_id those that carry it, of the tables with a person_team_id those of
      their person_team rows, and the lookup tables as they are. */
  lemma ShareIs(db: Db, x: int, table: string)
    requires table in db.data
    ensures table == "person" ==>
              Restrict(db, Some(x)).data[table] == Only(db.data[table], r => Cell(db, table, r, "id") == Int(x))
    ensures HasPersonId(table) ==>
              Restrict(db, Some(x)).data[table] == Only(db.data[table], r => Cell(db, table, r, "person_id") == Int(x))
    ensures HasPersonTeamId(table) ==>
              Restrict(db, Some(x)).data[table]
              == Only(db.data[table], r => TeamOf(db, Cell(db, table, r, "person_team_id"), x))
    ensures Lookup(table) ==> Restrict(db, Some(x)).data[table] == db.data[table]
  {
    KindOf(table);
    match Classify(table) {
      case Person => PersonShare(db, x, table);
      case PersonFk => PersonIdShare(db, x, table);
      case PersonTeamFk => PersonTeamShare(db, x, table);
      case PersonFree => OwnIsAll(table, db.data[table], Some(x), db);
      case Unclassified =>
    }
  }

  /** Without a person id the share has lookup tables only. */
  lemma NobodysShareIs(db: Db, table: string)
    requires table in db.data
    ensures table == "person" || HasPersonId(table) || HasPersonTeamId(table) ==> Restrict(db, None).data[table] == []
    ensures Lookup(table) ==> Restrict(db, None).data[table] == db.data[table]
  {
    KindOf(table);
    match Classify(table) {
      case PersonFree => OwnIsAll(table, db.data[table], None, db);
      case Unclassified =>
      case _ => OwnIsNone(table, db.data[table], db);
    }
  }
}
