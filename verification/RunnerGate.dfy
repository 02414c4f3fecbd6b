/** The runner with the gate behind it: which ranges it applies, and what an applied range has done. */
module RunnerGate {
  import opened Prelude
  import opened PyAst
  import opened MigrationProtocol
  import opened MigrationSession
  import opened MigrationRunner
  import Gate = MigrationGate
  import opened SchemaModel
  import opened GateMeaning

  datatype Revision = Revision(id: string, file: Gate.File)

  function Ids(range: seq<Revision>): seq<string> {
    seq(|range|, i requires 0 <= i < |range| => range[i].id)
  }

  function Files(range: seq<Revision>): seq<Gate.File> {
    seq(|range|, i requires 0 <= i < |range| => range[i].file)
  }

  /** The ranges that a mode stands for: none but expand files, or none but contract files. */
  ghost predicate RangeFits(mode: Mode, range: seq<Revision>, cs: seq<Gate.Classification>) {
    && range != [] && (forall r <- range :: IsRevisionId(r.id))
    && (mode.Expand? ==> forall c <- cs :: c.AutoAllowed())
    && (mode.Contract? ==> forall c <- cs :: c.kind.ContractKind? && !c.mislabelled)
    && !mode.Verify?
  }

  lemma FitsIffMayUpgrade(q: Request, s: Script, range: seq<Revision>, cs: seq<Gate.Classification>)
    requires Gate.AreClassificationsOf(Files(range), cs)
    requires s.pending == Returns(PendingRange(Ids(range), Gate.Decide(cs)))
    ensures MayUpgrade(q, s) <==> HeadsMatch(q, s) && RangeFits(q.mode, range, cs)
  {
    Gate.PassesIffAllAutoAllowed(Files(range), cs);
    Gate.ManualIffAllContract(Files(range), cs);
    assert |cs| == |range| == |Ids(range)|;
    assert (forall r <- range :: IsRevisionId(r.id)) <==> (forall id <- Ids(range) :: IsRevisionId(id)) by {
      if forall id <- Ids(range) :: IsRevisionId(id) {
        forall r | r in range
          ensures IsRevisionId(r.id)
        {
          var i :| 0 <= i < |range| && range[i] == r;
          assert Ids(range)[i] in Ids(range);
        }
      }
    }
  }

  /** `_run_on_connection`: the pending range is listed, the gate decides about its files, and the
      runner acts on the decision. `listed` is what listing the range gives or raises. The ghost
      parameters stand for any way in which the revisions' own code may use its operations. */
  method RunOnConnection(db: Session, q: Request, s: Script, listed: Answer<seq<Revision>>,
                         ghost env: Env, ghost calls: seq<Node>, ghost before: Db)
    returns (out: Outcome, cs: seq<Gate.Classification>)
    requires db.tx != AbortedTx && db.phase == Outside
    modifies db
    ensures listed.Returns? ==> Gate.AreClassificationsOf(Files(listed.value), cs)
    // The one upgrade is started exactly for a range that fits the mode.
    ensures db.upgrades == old(db.upgrades) +
      if EntersLock(s, old(db.held)) && HeadsMatch(q, s) && listed.Returns? && RangeFits(q.mode, listed.value, cs)
      then [q.target] else []
    ensures out.Finished? && out.result.kind.Applied? ==>
      listed.Returns? && RangeFits(q.mode, listed.value, cs) && db.upgrades == old(db.upgrades) + [q.target]
    // An expand run that reports "applied" has left every old client as it was.
    ensures out.Finished? && out.result.kind.Applied? && q.mode.Expand? && listed.Returns?
            && DrawnFromUpgrades(Files(listed.value), calls) && Faithful(env) && TextDefaultsNotNull(env)
            && DbOk(before) && RunAll(before, Meanings(env, calls)).Some? ==>
      KeepsOldClients(before, RunAll(before, Meanings(env, calls)).value)
  {
    cs := [];
    var pending: Answer<PendingRange>;
    match listed {
      case Raises(x, aborts) => pending := Raises(x, aborts);
      case Returns(range) =>
        var decision: Gate.Decision;
        decision, cs := Gate.DecideChanged(Files(range));
        pending := Returns(PendingRange(Ids(range), decision));
        FitsIffMayUpgrade(q, s.(pending := pending), range, cs);
    }
    ghost var held := db.held;
    out := ExecuteMigration(db, q, s.(pending := pending));
    if out.Finished? {
      SuccessMeans(q, s.(pending := pending), held, out.result);
    }
    if listed.Returns? && q.mode.Expand? && (forall c <- cs :: c.AutoAllowed())
       && DrawnFromUpgrades(Files(listed.value), calls) && Faithful(env) && TextDefaultsNotNull(env) && DbOk(before)
    {
      AllowedIsExpand(Files(listed.value), cs);
      ExpandKeepsOldClients(env, Files(listed.value), calls, before);
    }
  }
}
