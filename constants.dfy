/**
 * System and model constants of the captioning service
 * (meme_search_pro/image_to_text_generator/app/constants.py). The process
 * environment is a parameter: `env` maps variable names to their values.
 */
module Constants {

  type Env = map<string, string>

  /** `os.environ.get(key, default)`. */
  function EnvGet(env: Env, key: string, default: string): (v: string)
    ensures key !in env ==> v == default
    ensures key in env ==> v == env[key]
  {
    if key in env then env[key] else default
  }

  const DefaultPort := "3000"
  const CallbackPath := "/image_cores/"
  const JobDb := "/app/db/job_queue.db"

  function AppPort(env: Env): string { EnvGet(env, "APP_PORT", DefaultPort) }

  function GenUrl(env: Env): string { EnvGet(env, "GEN_URL", "http://127.0.0.1:" + AppPort(env)) }

  /** Base URL that every sender endpoint name is appended to. */
  function AppUrl(env: Env): (url: string)
    ensures EndsWith(url, CallbackPath)
  {
    ConcatEndsWith(GenUrl(env), CallbackPath);
    GenUrl(env) + CallbackPath
  }

  const DefaultModel := "Florence-2-base"

  const AvailableModels: seq<string> :=
    ["test", DefaultModel, "Florence-2-large", "SmolVLM-256M-Instruct", "SmolVLM-500M-Instruct", "moondream2"]

  predicate EndsWith(s: string, suffix: string)
  {
    |suffix| <= |s| && s[|s| - |suffix|..] == suffix
  }

  lemma ConcatEndsWith(a: string, b: string)
    ensures EndsWith(a + b, b)
  {
    assert (a + b)[|a + b| - |b|..] == b;
  }

  /** With neither APP_PORT nor GEN_URL set, callbacks go to the local port 3000. */
  lemma DefaultUrls()
    ensures AppPort(map[]) == "3000"
    ensures GenUrl(map[]) == "http://127.0.0.1:3000"
    ensures AppUrl(map[]) == "http://127.0.0.1:3000/image_cores/"
  {
  }

  /** GEN_URL, when set, wins over APP_PORT. */
  lemma GenUrlOverridesPort(env: Env)
    requires "GEN_URL" in env
    ensures AppUrl(env) == env["GEN_URL"] + CallbackPath
  {
  }

  /** Without GEN_URL, callbacks go to the local host on APP_PORT, or on 3000 when that is unset too. */
  lemma PortDecidesUrl(env: Env)
    requires "GEN_URL" !in env
    ensures AppUrl(env) == "http://127.0.0.1:" + AppPort(env) + CallbackPath
    ensures "APP_PORT" in env ==> AppUrl(env) == "http://127.0.0.1:" + env["APP_PORT"] + CallbackPath
    ensures "APP_PORT" !in env ==> AppUrl(env) == "http://127.0.0.1:3000/image_cores/"
  {
  }

  /** Six distinct names, "test" first, the default among them. */
  lemma ModelList()
    ensures |AvailableModels| == 6 && AvailableModels[0] == "test"
    ensures DefaultModel in AvailableModels
    ensures forall i, j :: 0 <= i < j < |AvailableModels| ==> AvailableModels[i] != AvailableModels[j]
  {
  }
}
