/** The migration runner and the comparison of local and applied migrations. */
module Migrations {
  import opened Prelude

  datatype Local = Local(name: string, sql: string, checksum: string)

  /** `schema_migrations`: the recorded checksum of each applied migration, or NULL. */
  type Table = map<string, Option<string>>

  /** Files of one directory: names are distinct, and a SHA-256 in hexadecimal is not empty. */
  ghost predicate ValidLocals(locals: seq<Local>)
  {
    && (forall i, j :: 0 <= i < j < |locals| ==> locals[i].name != locals[j].name)
    && (forall i :: 0 <= i < |locals| ==> locals[i].checksum != "")
  }

  predicate HasLocal(locals: seq<Local>, name: string)
  {
    exists i :: 0 <= i < |locals| && locals[i].name == name
  }

  // ---------------------------------------------------------------- comparison

  datatype Comparison =
    Comparison(matches: bool, missing: seq<string>, unexpected: set<string>, checksumMismatches: seq<string>)

  function NamesWhere(locals: seq<Local>, p: Local -> bool): (names: seq<string>)
    ensures names == [] <==> forall i :: 0 <= i < |locals| ==> !p(locals[i])
  {
    if locals == [] then []
    else (if p(locals[0]) then [locals[0].name] else []) + NamesWhere(locals[1..], p)
  }

  /** Applied migrations without a local file. */
  function Unknown(locals: seq<Local>, table: Table): (names: set<string>)
    ensures names == {} <==> forall name :: name in table ==> HasLocal(locals, name)
  {
    var names := set name | name in table && !HasLocal(locals, name);
    assert forall name :: name in table && !HasLocal(locals, name) ==> name in names;
    names
  }

  function Compare(locals: seq<Local>, table: Table): (c: Comparison)
  {
    var missing := NamesWhere(locals, (m: Local) => m.name !in table);
    var unexpected := Unknown(locals, table);
    var mismatches := NamesWhere(locals, (m: Local) => m.name in table && table[m.name] != Some(m.checksum));
    Comparison(missing == [] && unexpected == {} && mismatches == [], missing, unexpected, mismatches)
  }

  /** The inventories match exactly when the table holds every local migration with its checksum, and no other. */
  lemma CompareMatches(locals: seq<Local>, table: Table)
    ensures Compare(locals, table).matches <==>
      && (forall i :: 0 <= i < |locals| ==> locals[i].name in table && table[locals[i].name] == Some(locals[i].checksum))
      && (forall name :: name in table ==> HasLocal(locals, name))
  {
    hide HasLocal;
    var unexpected := Unknown(locals, table);
    var missing := NamesWhere(locals, (m: Local) => m.name !in table);
    var mismatches := NamesWhere(locals, (m: Local) => m.name in table && table[m.name] != Some(m.checksum));
  }

  // ---------------------------------------------------------------- what one run does

  /** The row of a migration once the runner has dealt with it: a missing or NULL checksum is filled in. */
  function Record(table: Table, m: Local): (t: Table)
  {
    if m.name in table && table[m.name] != None then table else table[m.name := Some(m.checksum)]
  }

  function After(table: Table, locals: seq<Local>): (t: Table)
  {
    if locals == [] then table else Record(After(table, locals[..|locals| - 1]), locals[|locals| - 1])
  }

  /** The migrations the runner executes, in order. */
  function Pending(table: Table, locals: seq<Local>): (names: seq<string>)
  {
    if locals == [] then []
    else
      var last := locals[|locals| - 1];
      Pending(table, locals[..|locals| - 1]) + (if last.name in table then [] else [last.name])
  }

  /** A recorded checksum that differs stops the run; the empty string counts as not recorded. */
  predicate Altered(table: Table, m: Local)
  {
    m.name in table && table[m.name].Some? && table[m.name].value != "" && table[m.name].value != m.checksum
  }

  ghost predicate Runnable(table: Table, locals: seq<Local>)
  {
    && (forall name :: name in table ==> HasLocal(locals, name))
    && (forall i :: 0 <= i < |locals| ==> !Altered(table, locals[i]))
  }

  /** Dealing with other migrations leaves a name alone. */
  lemma {:induction false} AfterOther(table: Table, locals: seq<Local>, name: string)
    requires forall i :: 0 <= i < |locals| ==> locals[i].name != name
    ensures name in After(table, locals) <==> name in table
    ensures name in table ==> After(table, locals)[name] == table[name]
  {
    if locals != [] {
      AfterOther(table, locals[..|locals| - 1], name);
    }
  }

  lemma {:induction false} AfterAt(table: Table, locals: seq<Local>, i: nat)
    requires ValidLocals(locals) && i < |locals|
    ensures locals[i].name in After(table, locals)
    ensures After(table, locals)[locals[i].name] ==
      if locals[i].name in table && table[locals[i].name] != None then table[locals[i].name] else Some(locals[i].checksum)
  {
    var n := |locals| - 1;
    if i < n {
      AfterAt(table, locals[..n], i);
      assert locals[i].name != locals[n].name;
    } else {
      AfterOther(table, locals[..n], locals[n].name);
    }
  }

  lemma {:induction false} AfterKeys(table: Table, locals: seq<Local>, name: string)
    ensures name in After(table, locals) <==> name in table || HasLocal(locals, name)
  {
    if locals != [] {
      var n := |locals| - 1;
      AfterKeys(table, locals[..n], name);
      if HasLocal(locals[..n], name) {
        var i :| 0 <= i < n && locals[..n][i].name == name;
        assert locals[i].name == name;
      }
      if HasLocal(locals, name) && locals[n].name != name {
        var i :| 0 <= i < |locals| && locals[i].name == name;
        assert locals[..n][i].name == name;
      }
    }
  }

  /**
    After a run that can complete, the inventories match if and only if no applied row carried an
    empty checksum: the runner takes "" for unrecorded but only fills in NULL.
   */
  lemma RunMatchesIff(table: Table, locals: seq<Local>)
    requires ValidLocals(locals) && Runnable(table, locals)
    ensures Compare(locals, After(table, locals)).matches <==> forall name :: name in table ==> table[name] != Some("")
  {
    var t := After(table, locals);
    CompareMatches(locals, t);
    hide After, Compare;
    forall i | 0 <= i < |locals|
      ensures locals[i].name in t
      ensures t[locals[i].name] == Some(locals[i].checksum) <==> locals[i].name !in table || table[locals[i].name] != Some("")
    {
      AfterAt(table, locals, i);
      assert !Altered(table, locals[i]);
    }
    forall name
      ensures name in t ==> HasLocal(locals, name)
    {
      AfterKeys(table, locals, name);
    }
  }

  /** The concrete row that shows the difference. */
  lemma EmptyChecksumStays()
    ensures var locals, table := [Local("001", "x", "abc")], map["001" := Some("")];
      ValidLocals(locals) && Runnable(table, locals) && !Compare(locals, After(table, locals)).matches
  {
    var locals, table := [Local("001", "x", "abc")], map["001" := Some("")];
    assert locals[0].name == "001";
    assert "001" in table && table["001"] == Some("");
    RunMatchesIff(table, locals);
  }

  // ---------------------------------------------------------------- interrupted runs

  lemma {:induction false} PendingNone(table: Table, locals: seq<Local>)
    requires forall i :: 0 <= i < |locals| ==> locals[i].name in table
    ensures Pending(table, locals) == []
  {
    if locals != [] {
      PendingNone(table, locals[..|locals| - 1]);
    }
  }

  lemma {:induction false} AfterSettled(table: Table, locals: seq<Local>)
    requires forall i :: 0 <= i < |locals| ==> locals[i].name in table && table[locals[i].name] != None
    ensures After(table, locals) == table
  {
    if locals != [] {
      AfterSettled(table, locals[..|locals| - 1]);
    }
  }

  lemma PrefixSettled(table: Table, locals: seq<Local>, k: nat)
    requires ValidLocals(locals) && k <= |locals|
    ensures var t := After(table, locals[..k]);
      forall i :: 0 <= i < k ==> locals[i].name in t && t[locals[i].name] != None
  {
    hide After;
    assert ValidLocals(locals[..k]);
    forall i | 0 <= i < k
      ensures var t := After(table, locals[..k]); locals[i].name in t && t[locals[i].name] != None
    {
      AfterAt(table, locals[..k], i);
      assert locals[..k][i] == locals[i];
    }
  }

  /**
    Resuming. If a run stops after `k` migrations, a later run starts from the table it left: the
    two together leave the table one full run would have left, and execute exactly the same
    migrations, each once, in the same order.
   */
  lemma {:induction false} Resume(table: Table, locals: seq<Local>, k: nat)
    requires ValidLocals(locals) && k <= |locals|
    ensures After(After(table, locals[..k]), locals) == After(table, locals)
    ensures Pending(table, locals[..k]) + Pending(After(table, locals[..k]), locals) == Pending(table, locals)
    decreases |locals| - k, |locals|
  {
    var t := After(table, locals[..k]);
    PrefixSettled(table, locals, k);
    if k == |locals| {
      assert locals[..k] == locals;
      AfterSettled(t, locals);
      PendingNone(t, locals);
    } else {
      var n := |locals| - 1;
      var shorter := locals[..n];
      assert shorter[..k] == locals[..k];
      Resume(table, shorter, k);
      forall i | 0 <= i < k ensures locals[..k][i].name != locals[n].name {
        assert locals[..k][i] == locals[i];
      }
      AfterOther(table, locals[..k], locals[n].name);
      hide ValidLocals, Record;
      AppendAssociative(Pending(table, locals[..k]), Pending(t, shorter), if locals[n].name in table then [] else [locals[n].name]);
    }
  }

  /** A second run after a completed one changes nothing and executes nothing. */
  lemma SecondRunIsNoOp(table: Table, locals: seq<Local>)
    requires ValidLocals(locals)
    ensures After(After(table, locals), locals) == After(table, locals)
    ensures Pending(After(table, locals), locals) == []
  {
    assert locals[..|locals|] == locals;
    PrefixSettled(table, locals, |locals|);
    AfterSettled(After(table, locals), locals);
    PendingNone(After(table, locals), locals);
  }

  /** A table left by an interrupted run can be run again whenever the first could. */
  lemma StillRunnable(table: Table, locals: seq<Local>, k: nat)
    requires ValidLocals(locals) && k <= |locals| && Runnable(table, locals)
    ensures Runnable(After(table, locals[..k]), locals)
  {
    var t := After(table, locals[..k]);
    hide After;
    assert ValidLocals(locals[..k]);
    forall name | name in t ensures HasLocal(locals, name) {
      AfterKeys(table, locals[..k], name);
      if HasLocal(locals[..k], name) {
        var i :| 0 <= i < k && locals[..k][i].name == name;
        assert locals[i].name == name;
      }
    }
    forall i | 0 <= i < |locals| ensures !Altered(t, locals[i]) {
      assert !Altered(table, locals[i]);
      if i < k {
        AfterAt(table, locals[..k], i);
        assert locals[..k][i] == locals[i];
      } else {
        forall j | 0 <= j < k ensures locals[..k][j].name != locals[i].name {
          assert locals[..k][j] == locals[j];
        }
        AfterOther(table, locals[..k], locals[i].name);
      }
    }
  }

  // ---------------------------------------------------------------- the runner

  datatype MigrationError = UnknownApplied(names: set<string>) | ChecksumDiffers(name: string) | Interrupted(name: string)

  /** What may go wrong at one migration: its SQL fails and is rolled back, or the process dies before or after the effect. */
  datatype Fault = NoFault | Fails | DiesAfter

  /** Dealing with the migration writes to the database: it is pending, or its row has no checksum yet. */
  ghost predicate Writes(applied: Table, m: Local)
  {
    m.name !in applied || applied[m.name].None?
  }

  class Database {
    var applied: Table
    /** Every migration script whose transaction committed, in order. */
    ghost var executed: seq<string>

    /**
      One pass of the loop. `dealt` says whether its effect took place; when it did, the row is
      recorded and the script is committed exactly when the migration was not applied yet.
     */
    method MigrateOne(m: Local, fault: Fault) returns (error: Option<MigrationError>, dealt: bool)
      modifies this
      ensures dealt ==> applied == Record(old(applied), m) && !Altered(old(applied), m)
      ensures dealt ==> executed == old(executed) + (if m.name in old(applied) then [] else [m.name])
      ensures !dealt ==> applied == old(applied) && executed == old(executed) && error.Some?
      ensures error == Some(ChecksumDiffers(m.name)) <==> Altered(old(applied), m)
      ensures error.Some? ==> error.value == ChecksumDiffers(m.name) || (error.value == Interrupted(m.name) && fault != NoFault)
      ensures dealt <==> !Altered(old(applied), m) && !(fault == Fails && Writes(old(applied), m))
      ensures error == Some(Interrupted(m.name)) <==> !Altered(old(applied), m) && (fault == DiesAfter || (fault == Fails && Writes(old(applied), m)))
    {
      dealt := false;
      if m.name in applied {
        if Altered(applied, m) {
          return Some(ChecksumDiffers(m.name)), false;
        }
        if applied[m.name].None? {
          if fault == Fails {
            return Some(Interrupted(m.name)), false;
          }
          applied := applied[m.name := Some(m.checksum)];
        }
      } else {
        if fault == Fails {
          return Some(Interrupted(m.name)), false;
        }
        applied := applied[m.name := Some(m.checksum)];
        executed := executed + [m.name];
      }
      return if fault == DiesAfter then Some(Interrupted(m.name)) else None, true;
    }

    /**
      The loop of `migrate`. Whatever happens, the database is the one obtained by dealing with the
      first `k` local migrations, and the scripts committed by this run are exactly the pending ones
      among them, each once and in order; a run without error deals with all of them. Without
      faults it completes exactly when the table is runnable.
     */
    method Migrate(locals: seq<Local>, faults: string -> Fault) returns (r: Result<(), MigrationError>, ghost k: nat)
      requires ValidLocals(locals)
      modifies this
      ensures k <= |locals| && applied == After(old(applied), locals[..k])
      ensures executed == old(executed) + Pending(old(applied), locals[..k])
      ensures r.Success? ==> k == |locals| && Runnable(old(applied), locals)
      ensures r.Failure? && r.error.Interrupted? ==> faults(r.error.name) != NoFault
      ensures r.Failure? && !r.error.Interrupted? ==> !Runnable(old(applied), locals)
    {
      k := 0;
      var unknownApplied := Unknown(locals, applied);
      if unknownApplied != {} {
        return Failure(UnknownApplied(unknownApplied)), 0;
      }
      assert Dealt(applied, executed, locals[..0], applied, executed);
      assert Runnable(applied, locals) <==> forall i :: 0 <= i < |locals| ==> !Altered(applied, locals[i]);
      hide *;
      for i := 0 to |locals|
        invariant k == i && Dealt(old(applied), old(executed), locals[..i], applied, executed)
        invariant forall j :: 0 <= j < i ==> !Altered(old(applied), locals[j])
      {
        DealtNext(old(applied), old(executed), locals, i, applied, executed);
        var error, dealt := MigrateOne(locals[i], faults(locals[i].name));
        if dealt {
          k := i + 1;
        }
        if error.Some? {
          DealtIs(old(applied), old(executed), locals[..k], applied, executed);
          return Failure(error.value), k;
        }
      }
      DealtIs(old(applied), old(executed), locals[..k], applied, executed);
      r := Success(());
    }
  }

  /** The table and the scripts after dealing with the migrations. */
  ghost predicate Dealt(table: Table, executed: seq<string>, locals: seq<Local>, tableNext: Table, executedNext: seq<string>)
  {
    tableNext == After(table, locals) && executedNext == executed + Pending(table, locals)
  }

  lemma DealtIs(table: Table, executed: seq<string>, locals: seq<Local>, tableNext: Table, executedNext: seq<string>)
    requires Dealt(table, executed, locals, tableNext, executedNext)
    ensures tableNext == After(table, locals) && executedNext == executed + Pending(table, locals)
  {
    hide After, Pending;
  }

  lemma DealtNext(table: Table, executed: seq<string>, locals: seq<Local>, i: nat, tableNext: Table, executedNext: seq<string>)
    requires ValidLocals(locals) && i < |locals| && Dealt(table, executed, locals[..i], tableNext, executedNext)
    ensures Dealt(table, executed, locals[..i + 1], Record(tableNext, locals[i]),
                  executedNext + (if locals[i].name in tableNext then [] else [locals[i].name]))
    ensures Altered(tableNext, locals[i]) == Altered(table, locals[i])
  {
    RunStep(table, locals, i);
    hide After, Pending, Record, Altered, ValidLocals;
    AppendAssociative(executed, Pending(table, locals[..i]), if locals[i].name in tableNext then [] else [locals[i].name]);
  }

  lemma RunStep(table: Table, locals: seq<Local>, i: nat)
    requires ValidLocals(locals) && i < |locals|
    ensures var t := After(table, locals[..i]);
      && After(table, locals[..i + 1]) == Record(t, locals[i])
      && Pending(table, locals[..i + 1]) == Pending(table, locals[..i]) + (if locals[i].name in t then [] else [locals[i].name])
      && Altered(t, locals[i]) == Altered(table, locals[i])
  {
    assert locals[..i + 1][..i] == locals[..i];
    forall j | 0 <= j < i ensures locals[..i][j].name != locals[i].name {
      assert locals[..i][j] == locals[j];
    }
    AfterOther(table, locals[..i], locals[i].name);
  }
}
