/**
 * Experience API (xAPI) support: the conversion of a list of xAPI statements
 * into a learner with one achievement per statement.
 */
module XApi {
  import opened Wrappers
  import opened DcmCore

  /**
   * The actor of a statement as the conversion sees it: absent (or empty),
   * present with an account name, or present with a JSON null as its name.
   */
  datatype Actor = NoActor | Named(name: string) | NullName

  /** The parts of an xAPI statement the conversion reads. */
  datatype Statement = Statement(
    actor: Actor, competencePath: string,
    scoreScaled: real, scoreRaw: real, timestamp: string)

  /** One entry of the statement list; `statement` is None when the entry carries no (truthy) statement. */
  datatype StatementEntry = StatementEntry(statement: Option<Statement>)

  /** Python's `int(x)` on a float: truncation toward zero. */
  function Trunc(x: real): (r: int)
    ensures x >= 0.0 ==> r >= 0 && r as real <= x < r as real + 1.0
    ensures x < 0.0 ==> r <= 0 && r as real - 1.0 < x <= r as real
  {
    if x >= 0.0 then x.Floor else -((-x).Floor)
  }

  /** The achievement a statement becomes; the level is the scaled score times the number of valid levels, truncated. */
  function AchievementOf(s: Statement, totalValidLevels: int): (a: Achievement)
    ensures a.path == s.competencePath && a.score == Some(s.scoreRaw)
    ensures a.dateAssessedIso == Some(s.timestamp)
    ensures a.level == Some(Trunc(s.scoreScaled * totalValidLevels as real))
  {
    Achievement(s.competencePath, Some(Trunc(s.scoreScaled * totalValidLevels as real)),
                Some(s.scoreRaw), Some("%"), None, Some(s.timestamp))
  }

  // ---------------------------------------------------------------------
  // The fold of to_learner, entry by entry

  /** The actor id after the entries: the first actor seen; later actors never replace it. */
  function ActorIdAfter(entries: seq<StatementEntry>): Option<string>
  {
    if entries == [] then None
    else
      var prev := ActorIdAfter(entries[..|entries| - 1]);
      var last := entries[|entries| - 1];
      if prev.None? && last.statement.Some? && last.statement.value.actor.Named?
      then Some(last.statement.value.actor.name)
      else prev
  }

  /** The achievements after the entries: one per entry with a statement, in entry order. */
  function AchievementsAfter(entries: seq<StatementEntry>, totalValidLevels: int): (r: seq<Achievement>)
    ensures |r| == StatementCount(entries)
  {
    if entries == [] then []
    else
      var prev := AchievementsAfter(entries[..|entries| - 1], totalValidLevels);
      var last := entries[|entries| - 1];
      if last.statement.Some? then prev + [AchievementOf(last.statement.value, totalValidLevels)] else prev
  }

  /** The number of entries that carry a statement. */
  function StatementCount(entries: seq<StatementEntry>): nat
  {
    if entries == [] then 0
    else StatementCount(entries[..|entries| - 1]) + (if entries[|entries| - 1].statement.Some? then 1 else 0)
  }

  /** The warning for an actor that differs from the one already fixed. */
  function ActorWarning(newActorId: string, actorId: string): string
  {
    "invalid actor_id " + newActorId + " != " + actorId
  }

  /** How a present actor's name reads in a warning; a null name prints as `None`. */
  function ActorText(a: Actor): (r: string)
    requires !a.NoActor?
    ensures a.Named? ==> r == a.name
  {
    if a.Named? then a.name else "None"
  }

  /** A present actor differs from the fixed id when it is null or names another account. */
  predicate Differs(a: Actor, actorId: string)
  {
    a.NullName? || (a.Named? && a.name != actorId)
  }

  /** The warnings issued while folding the entries: one per statement whose actor differs from the fixed one. */
  function WarningsAfter(entries: seq<StatementEntry>): seq<string>
  {
    if entries == [] then []
    else
      var prev := WarningsAfter(entries[..|entries| - 1]);
      var actorId := ActorIdAfter(entries[..|entries| - 1]);
      var last := entries[|entries| - 1];
      if actorId.Some? && last.statement.Some? && Differs(last.statement.value.actor, actorId.value)
      then prev + [ActorWarning(ActorText(last.statement.value.actor), actorId.value)]
      else prev
  }

  const NoLearner := "no learner / actor defined"

  // ---------------------------------------------------------------------
  // Properties of the fold

  /** The account name of the first statement that has one, read from the front. */
  function FirstActor(entries: seq<StatementEntry>): (r: Option<string>)
  {
    if entries == [] then None
    else if entries[0].statement.Some? && entries[0].statement.value.actor.Named?
    then Some(entries[0].statement.value.actor.name)
    else FirstActor(entries[1..])
  }

  lemma {:induction false} FirstActorAppend(entries: seq<StatementEntry>, e: StatementEntry)
    ensures FirstActor(entries + [e])
         == if FirstActor(entries).Some? then FirstActor(entries)
            else if e.statement.Some? && e.statement.value.actor.Named?
            then Some(e.statement.value.actor.name) else None
    decreases |entries|
  {
    if entries != [] {
      assert (entries + [e])[1..] == entries[1..] + [e];
      FirstActorAppend(entries[1..], e);
    } else {
      assert [e][1..] == [];
    }
  }

  /** The fold fixes the actor of the first statement that has one. */
  lemma {:induction false} ActorIdIsFirstActor(entries: seq<StatementEntry>)
    ensures ActorIdAfter(entries) == FirstActor(entries)
    decreases |entries|
  {
    if entries != [] {
      var init := entries[..|entries| - 1];
      ActorIdIsFirstActor(init);
      FirstActorAppend(init, entries[|entries| - 1]);
      assert init + [entries[|entries| - 1]] == entries;
    }
  }

  /** Once an actor is fixed, later entries, whatever their actors, leave it. */
  lemma {:induction false} ActorIdStable(entries: seq<StatementEntry>, more: seq<StatementEntry>)
    requires ActorIdAfter(entries).Some?
    ensures ActorIdAfter(entries + more) == ActorIdAfter(entries)
    decreases |more|
  {
    if more != [] {
      var init := more[..|more| - 1];
      ActorIdStable(entries, init);
      assert (entries + more)[..|entries + more| - 1] == entries + init;
    } else {
      assert entries + more == entries;
    }
  }

  /**
   * The warnings against a fixed actor id: one per entry whose statement has
   * a present actor that differs from it, in entry order.
   */
  function WarningsAgainst(entries: seq<StatementEntry>, actorId: string): (r: seq<string>)
    ensures |r| <= |entries|
  {
    if entries == [] then []
    else
      var e := entries[0];
      var rest := WarningsAgainst(entries[1..], actorId);
      if e.statement.Some? && Differs(e.statement.value.actor, actorId)
      then [ActorWarning(ActorText(e.statement.value.actor), actorId)] + rest
      else rest
  }

  lemma {:induction false} WarningsAgainstAppend(entries: seq<StatementEntry>, e: StatementEntry, actorId: string)
    ensures WarningsAgainst(entries + [e], actorId)
         == WarningsAgainst(entries, actorId)
            + (if e.statement.Some? && Differs(e.statement.value.actor, actorId)
               then [ActorWarning(ActorText(e.statement.value.actor), actorId)] else [])
    decreases |entries|
  {
    if entries != [] {
      assert (entries + [e])[1..] == entries[1..] + [e];
      WarningsAgainstAppend(entries[1..], e, actorId);
    } else {
      assert [e][1..] == [];
    }
  }

  /** Before any account name is fixed, no warning is issued. */
  lemma {:induction false} NoWarningsBeforeActor(entries: seq<StatementEntry>)
    requires FirstActor(entries).None?
    ensures WarningsAfter(entries) == []
    decreases |entries|
  {
    if entries != [] {
      var init := entries[..|entries| - 1];
      FirstActorAppend(init, entries[|entries| - 1]);
      assert init + [entries[|entries| - 1]] == entries;
      NoWarningsBeforeActor(init);
      ActorIdIsFirstActor(init);
    }
  }

  /**
   * The warnings of the fold are exactly those against the first account
   * name: none before the statement that fixes it, then one per later
   * statement whose actor differs from it, in order.
   */
  lemma WarningsAreAgainstFirstActor(pre: seq<StatementEntry>, e: StatementEntry, post: seq<StatementEntry>)
    requires FirstActor(pre).None? && e.statement.Some? && e.statement.value.actor.Named?
    ensures FirstActor(pre + [e] + post) == Some(e.statement.value.actor.name)
    ensures WarningsAfter(pre + [e] + post) == WarningsAgainst(post, e.statement.value.actor.name)
  {
    var id := e.statement.value.actor.name;
    var head := pre + [e];
    ActorIdIsFirstActor(pre);
    NoWarningsBeforeActor(pre);
    assert head[..|head| - 1] == pre;
    assert ActorIdAfter(head) == Some(id) && WarningsAfter(head) == [];
    ActorIdStable(head, post);
    ActorIdIsFirstActor(head + post);
    WarningsAfterFixed(head, post, id);
  }

  /** Once the actor is fixed to `id` without a warning, the later entries warn exactly against `id`. */
  lemma {:induction false} WarningsAfterFixed(head: seq<StatementEntry>, post: seq<StatementEntry>, id: string)
    requires ActorIdAfter(head) == Some(id) && WarningsAfter(head) == []
    ensures WarningsAfter(head + post) == WarningsAgainst(post, id)
    decreases |post|
  {
    if post == [] {
      assert head + post == head;
    } else {
      var init := post[..|post| - 1];
      var x := post[|post| - 1];
      WarningsAfterFixed(head, init, id);
      ActorIdStable(head, init);
      assert (head + post)[..|head + post| - 1] == head + init;
      assert init + [x] == post;
      WarningsAgainstAppend(init, x, id);
    }
  }

  /**
   * The entry at position `i`, when it carries a statement, yields the
   * achievement right after those of the statements before it.
   */
  lemma {:induction false} AchievementAt(entries: seq<StatementEntry>, totalValidLevels: int, i: nat)
    requires i < |entries| && entries[i].statement.Some?
    ensures var r := AchievementsAfter(entries, totalValidLevels);
      && StatementCount(entries[..i]) < |r|
      && r[StatementCount(entries[..i])] == AchievementOf(entries[i].statement.value, totalValidLevels)
    decreases |entries|
  {
    var n := |entries| - 1;
    var init := entries[..n];
    var prev := AchievementsAfter(init, totalValidLevels);
    if i == n {
      assert AchievementsAfter(entries, totalValidLevels) == prev + [AchievementOf(entries[n].statement.value, totalValidLevels)];
    } else {
      AchievementAt(init, totalValidLevels, i);
      assert init[..i] == entries[..i];
      assert AchievementsAfter(entries, totalValidLevels)[StatementCount(entries[..i])]
          == prev[StatementCount(entries[..i])];
    }
  }

  // ---------------------------------------------------------------------
  // XAPI

  class XAPI {
    /** xapi_dict: the statement entries read from a JSON file. */
    var entries: seq<StatementEntry>

    constructor()
      ensures entries == []
    {
      entries := [];
    }

    /**
     * to_learner: fold the entries into achievements and an actor id; a
     * learner carrying those achievements exactly when the actor id is a
     * non-empty name, and the warnings issued along the way.
     */
    method ToLearner(totalValidLevels: int) returns (learner: Option<Learner>, warnings: seq<string>)
      ensures learner.Some? <==> Truthy(ActorIdAfter(entries))
      ensures learner.Some? ==>
        && fresh(learner.value)
        && learner.value.learnerId == ActorIdAfter(entries).value
        && learner.value.achievements == Some(AchievementsAfter(entries, totalValidLevels))
        && learner.value.Valid()
      ensures warnings == WarningsAfter(entries) + (if learner.None? then [NoLearner] else [])
    {
      var achievements: seq<Achievement> := [];
      var actorId: Option<string> := None;
      warnings := [];
      learner := None;
      for i := 0 to |entries|
        invariant achievements == AchievementsAfter(entries[..i], totalValidLevels)
        invariant actorId == ActorIdAfter(entries[..i])
        invariant warnings == WarningsAfter(entries[..i])
      {
        assert entries[..i + 1][..i] == entries[..i];
        var entry := entries[i];
        if entry.statement.Some? {
          var stmt := entry.statement.value;
          if !stmt.actor.NoActor? {
            if actorId.None? {
              if stmt.actor.Named? {
                actorId := Some(stmt.actor.name);
              }
            } else if Differs(stmt.actor, actorId.value) {
              warnings := warnings + [ActorWarning(ActorText(stmt.actor), actorId.value)];
            }
          }
          achievements := achievements + [AchievementOf(stmt, totalValidLevels)];
        }
      }
      assert entries[..|entries|] == entries;
      if actorId.Some? && actorId.value != "" {
        var l := new Learner(actorId.value, Some(achievements));
        learner := Some(l);
      } else {
        warnings := warnings + [NoLearner];
      }
    }
  }
}
