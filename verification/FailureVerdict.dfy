/** What becomes of a task whose pipeline raised (agents/dreamer_agent.py: `_verdict_apres_echec`,
    `_faut_conserver_la_branche`, `_sort_de_la_branche`, `_delai_rejeu_echec_s`).

    The error is opaque: the model keeps only how the source's signature lists classify its text. */
module FailureVerdict {
  import opened Wrappers
  import opened Backlog

  /** quality: a gate of the engine refused the work.  nothingToKeep: the message says that the
      branch is identical to its base or that no agent ran.  infra, quota and provider are the
      raw substring tests, which also fire on file names quoted by a quality gate. */
  datatype Error = Error(quality: bool, nothingToKeep: bool, infra: bool, quota: bool, provider: bool)

  datatype Cause = Infra | ProviderQuota | Code
  datatype Verdict =
    | GiveBack(cause: Cause, coolDown: bool)
    | Close(status: Status, retries: nat, scheduledAt: Option<Time>, coolDown: bool)

  const DEFAULT_DELAY: Time := 21600.0
  const MIN_DELAY: Time := 60.0

  /** An unreadable setting is None and falls back to six hours. */
  function RetryDelay(setting: Option<Time>): (d: Time)
    ensures d >= 60.0
    ensures setting.Some? && setting.value >= 60.0 ==> d == setting.value
    ensures setting.None? ==> d == 21600.0
    ensures setting.Some? && setting.value < 60.0 ==> d == 60.0
  {
    var d := if setting.Some? then setting.value else DEFAULT_DELAY;
    if d < MIN_DELAY then MIN_DELAY else d
  }

  function VerdictAfter(e: Error, retries: nat, now: Time, delay: Time): Verdict {
    if !e.quality && e.infra then GiveBack(Infra, false)
    else if !e.quality && e.quota then GiveBack(ProviderQuota, true)
    else
      var coolDown := !e.quality && e.provider;
      if retries + 1 >= MAX_ATTEMPTS then Close(Abandoned, retries + 1, None, coolDown)
      else Close(Failed, retries + 1, Some(now + delay), coolDown)
  }

  datatype BranchFate = Keep | Delete | Rollback

  predicate WorthKeeping(e: Error) { e.quality && !e.nothingToKeep }

  /** The status here is the `status` entry of the verdict; a task that is given back carries a
      marker that is never `abandoned`. */
  function FateOfBranch(e: Error, v: Verdict): BranchFate {
    if !WorthKeeping(e) then Rollback
    else if v.Close? && v.status.Abandoned? then Delete else Keep
  }

  /** The columns written by `update_task_status` when the verdict closes the attempt. */
  function ClosingPatch(v: Verdict, fate: BranchFate, branch: string, message: string): Patch
    requires v.Close?
  {
    Patch(
      if v.scheduledAt.Some? then Some(v.scheduledAt) else None,
      if fate.Keep? then Some(Some(branch)) else None,
      Some(v.retries),
      Some(Some(message)))
  }

  /** A branch is kept exactly for work refused by a gate that will be retried, and never for a task
      that is given back: the fate of the branch follows from the verdict on every error. */
  lemma BranchIsKeptIff(e: Error, retries: nat, now: Time, delay: Time)
    ensures var v := VerdictAfter(e, retries, now, delay);
      && (FateOfBranch(e, v).Keep? <==> e.quality && !e.nothingToKeep && v.Close? && v.status.Failed?)
      && (FateOfBranch(e, v).Delete? <==> e.quality && !e.nothingToKeep && v.Close? && v.status.Abandoned?)
      && (v.GiveBack? ==> FateOfBranch(e, v).Rollback?)
  {
  }

  /** An attempt is charged exactly when the verdict closes it; the third charge abandons. */
  lemma ChargeIff(e: Error, retries: nat, now: Time, delay: Time)
    requires retries < MAX_ATTEMPTS
    ensures var v := VerdictAfter(e, retries, now, delay);
      && (v.GiveBack? <==> !e.quality && (e.infra || e.quota))
      && (v.GiveBack? ==> v.cause == if e.infra then Infra else ProviderQuota)
      && (v.Close? ==> v.retries == retries + 1 && (v.status.Abandoned? <==> v.retries == 3))
      && (v.Close? && !v.status.Abandoned? ==> v.status.Failed? && v.scheduledAt == Some(now + delay))
      && (v.coolDown <==> !e.quality && !e.infra && (e.quota || e.provider))
  {
  }

  /** The row after a charged attempt: one more attempt; a date exactly when it will be retried; and
      the branch of the attempt exactly when it is kept for that retry. */
  lemma RowAfterCharge(row: Row, e: Error, now: Time, delay: Time, branch: string, message: string)
    requires row.retries < MAX_ATTEMPTS && VerdictAfter(e, row.retries, now, delay).Close?
    ensures var v := VerdictAfter(e, row.retries, now, delay);
      var row' := PatchedRow(row, v.status, ClosingPatch(v, FateOfBranch(e, v), branch, message));
      && row'.retries == row.retries + 1
      && row'.status == (if row'.retries == 3 then Abandoned else Failed)
      && row'.scheduledAt == (if row'.status.Failed? then Some(now + delay) else row.scheduledAt)
      && row'.gitBranch ==
           (if row'.status.Failed? && e.quality && !e.nothingToKeep then Some(branch) else row.gitBranch)
      && row' == row.(status := row'.status, retries := row'.retries, scheduledAt := row'.scheduledAt,
                      gitBranch := row'.gitBranch, errorMessage := Some(message))
  {
    ChargeIff(e, row.retries, now, delay);
    BranchIsKeptIff(e, row.retries, now, delay);
  }
}
