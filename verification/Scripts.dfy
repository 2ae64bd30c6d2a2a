/** What user code does when it is called: one script of actions per call, and nothing beyond the last. */
module Scripts {
  function ScriptOf<A>(scripts: seq<seq<A>>, i: nat): seq<A> {
    if i < |scripts| then scripts[i] else []
  }
}
