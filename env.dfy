/**
 * The deployment environment and the history file it selects
 * (main.py:260-264, main.py:306, scripts/inject_env.py:23).
 */
module Env {
  import opened Common

  const Development := "development"
  const Production := "production"
  const ProductionHistory := "static/history.json"
  const LocalHistory := "static/history_local.json"

  /**
   * `os.getenv('BLIZZARD_ENV', 'development')`; `lookup` is the variable's
   * value, or None when it is unset.
   */
  function BlizzardEnv(lookup: Option<string>): (env: string)
    ensures lookup.None? ==> env == Development
    ensures lookup.Some? ==> env == lookup.value
  {
    match lookup
    case Some(value) => value
    case None => Development
  }

  /**
   * `get_history_file`: the published history only in production, the
   * local one for every other environment, an unset one included.
   */
  function HistoryFile(lookup: Option<string>): (path: string)
    ensures path == ProductionHistory <==> BlizzardEnv(lookup) == Production
    ensures path == LocalHistory <==> BlizzardEnv(lookup) != Production
  {
    assert |ProductionHistory| != |LocalHistory|;
    if BlizzardEnv(lookup) == Production then ProductionHistory else LocalHistory
  }

  /** Without `BLIZZARD_ENV`, and with any value but `production`, runs stay local. */
  lemma UnsetEnvIsLocal(lookup: Option<string>)
    requires lookup.None? || lookup.value != Production
    ensures HistoryFile(lookup) == LocalHistory
  {
    assert |Development| != |Production|;
  }
}
