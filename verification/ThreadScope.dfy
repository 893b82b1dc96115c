/** Conversation threads inside a project: which rows a request may see. */
module ThreadScope {
  import opened Seqs
  import opened Text

  datatype Result<+T> = Ok(value: T) | Refused

  const THREAD_MODES := {"null_only", "exact", "inherit"}
  const FORBIDDEN_WILDCARDS := {"*", "all", "all_threads", "any", "any_thread", "cross_thread"}

  function NormalizeThread(value: Option<string>): Result<Option<string>> {
    match value
    case None => Ok(None)
    case Some(v) =>
      var text := Strip(v);
      if text == "" then Ok(None)
      else if Lower(text) in FORBIDDEN_WILDCARDS then Refused
      else Ok(Some(text))
  }

  function ResolveMode(thread: Option<string>, mode: Option<string>): Result<string> {
    match NormalizeThread(thread)
    case Refused => Refused
    case Ok(requested) =>
      if mode == None || mode == Some("") then Ok(if requested.Some? then "inherit" else "null_only")
      else
        var resolved := Lower(Strip(mode.value));
        if resolved !in THREAD_MODES then Refused
        else if requested == None && resolved == "exact" then Refused
        else Ok(resolved)
  }

  function AdmitsThread(memoryThread: Option<string>, requestedThread: Option<string>, mode: Option<string>)
    : Result<bool>
  {
    match (NormalizeThread(requestedThread), NormalizeThread(memoryThread), ResolveMode(requestedThread, mode))
    case (Ok(requested), Ok(stored), Ok(resolved)) =>
      if resolved == "null_only" then Ok(stored == None)
      else if resolved == "exact" then Ok(requested.Some? && stored == requested)
      else if requested == None then Ok(stored == None)
      else Ok(stored == None || stored == requested)
    case _ => Refused
  }

  // A thread name as it is stored: the result of normalising it.
  predicate NormalThread(t: Option<string>) {
    NormalizeThread(t) == Ok(t)
  }

  lemma NormalizeThreadIdempotent(t: Option<string>)
    requires NormalizeThread(t).Ok?
    ensures NormalThread(NormalizeThread(t).value)
  {
  }

  // No selectable mode shows a row of a different named thread, and a request that
  // names no thread sees project-level rows only.
  lemma NeverCrossesThreads(stored: Option<string>, requested: Option<string>, mode: Option<string>)
    requires NormalThread(stored) && NormalThread(requested)
    requires AdmitsThread(stored, requested, mode) == Ok(true)
    ensures stored == None || stored == requested
  {
  }

  // Whether a request is refused depends on the request alone, not on the row.
  lemma RefusalIgnoresRow(s1: Option<string>, s2: Option<string>, requested: Option<string>, mode: Option<string>)
    requires NormalThread(s1) && NormalThread(s2)
    ensures AdmitsThread(s1, requested, mode).Refused? <==> AdmitsThread(s2, requested, mode).Refused?
  {
  }

  // ----- What the rules mean -----

  // A request's mode: none given, or one of the three by name, in any case and with spaces around.
  predicate NoMode(mode: Option<string>) {
    mode == None || mode == Some("")
  }

  predicate IsMode(mode: Option<string>, name: string) {
    mode.Some? && mode.value != "" && Lower(Strip(mode.value)) == name
  }

  // A thread name is normal when it is not empty, has no white space around it and is no wildcard.
  lemma NormalThreadIff(t: Option<string>)
    ensures NormalThread(t) <==>
            t == None || (t.value != "" && Trimmed(t.value) &&
                          Lower(t.value) !in {"*", "all", "all_threads", "any", "any_thread", "cross_thread"})
  {
    if t.Some? && Trimmed(t.value) {
      assert Strip(t.value) == t.value;
    }
  }

  // Blank names mean no thread, wildcards are refused in any case, and other names lose the white space around them.
  lemma NormalizedThread(name: string)
    ensures Blank(name) ==> NormalizeThread(Some(name)) == Ok(None)
    ensures !Blank(name) && Lower(Strip(name)) in {"*", "all", "all_threads", "any", "any_thread", "cross_thread"} ==>
              NormalizeThread(Some(name)).Refused?
    ensures !Blank(name) && Lower(Strip(name)) !in {"*", "all", "all_threads", "any", "any_thread", "cross_thread"} ==>
              NormalizeThread(Some(name)) == Ok(Some(Strip(name)))
    ensures NormalizeThread(None) == Ok(None)
  {
    BlankIffStripped(name);
  }

  // What each mode shows, exactly: project-level rows; the rows of the named thread; or both, which is also
  // what a request without a mode gets. Every other mode is refused, and exact without a thread.
  lemma AdmittedExactly(stored: Option<string>, requested: Option<string>, mode: Option<string>)
    requires NormalThread(stored) && NormalThread(requested)
    ensures IsMode(mode, "null_only") ==> AdmitsThread(stored, requested, mode) == Ok(stored == None)
    ensures IsMode(mode, "exact") ==>
              AdmitsThread(stored, requested, mode) == if requested == None then Refused else Ok(stored == requested)
    ensures IsMode(mode, "inherit") || NoMode(mode) ==>
              AdmitsThread(stored, requested, mode) == Ok(stored == None || stored == requested)
    ensures !NoMode(mode) && !IsMode(mode, "null_only") && !IsMode(mode, "exact") && !IsMode(mode, "inherit") ==>
              AdmitsThread(stored, requested, mode).Refused?
  {
    ResolvedModes(requested, mode);
  }

  lemma ResolvedModes(requested: Option<string>, mode: Option<string>)
    requires NormalThread(requested)
    ensures IsMode(mode, "null_only") ==> ResolveMode(requested, mode) == Ok("null_only")
    ensures IsMode(mode, "inherit") ==> ResolveMode(requested, mode) == Ok("inherit")
    ensures IsMode(mode, "exact") ==> ResolveMode(requested, mode) == if requested == None then Refused else Ok("exact")
    ensures NoMode(mode) ==> ResolveMode(requested, mode) == Ok(if requested.Some? then "inherit" else "null_only")
    ensures !NoMode(mode) && !IsMode(mode, "null_only") && !IsMode(mode, "exact") && !IsMode(mode, "inherit") ==>
              ResolveMode(requested, mode).Refused?
  {
  }
}
