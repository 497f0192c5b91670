/** What the audit hook does with one runtime audit event before it reaches the
    queue: the entry format, the filter that drops the logging subsystem's own
    frame-introspection events, and the relay's choice of emission method. */
module AuditEntry {
  import opened Wrappers
  import opened Text

  /** One step of a concurrent run, as seen by a relay: a hook call from some
      thread, one iteration of the worker's loop, or the halt request. */
  datatype Op = HookCall(action: string, info: seq<string>) | Work | HaltRequest

  /** The action whose events the filter may drop. */
  const FrameAction := "sys._getframe"
  /** The two path fragments of the logging package's `__init__.py`: the
      Windows spelling (two backslashes, as the literal is written) and the
      POSIX spelling. */
  const WindowsLoggingInit := "logging\\\\__init__.py"
  const PosixLoggingInit := "logging/__init__.py"

  /** `"{}: {}".format(action, ";".join(info))`, with `info` already turned into
      strings. */
  function Format(action: string, info: seq<string>): string {
    action + ": " + Join(";", info)
  }

  /** The entry reads back into its action and info: the action, then `": "`,
      then the joined info, which splits back into the info items when there is
      at least one and none contains `;`. */
  lemma FormatRoundTrip(action: string, info: seq<string>)
    ensures var s := Format(action, info);
      && |s| >= |action| + 2
      && s[..|action|] == action
      && s[|action|..|action| + 2] == ": "
      && Join([';'], Split(s[|action| + 2..], ';')) == s[|action| + 2..]
    ensures |info| >= 1 && (forall k :: 0 <= k < |info| ==> ';' !in info[k]) ==>
      Split(Format(action, info)[|action| + 2..], ';') == info
  {
    var s := Format(action, info);
    assert s[|action| + 2..] == Join(";", info);
    assert ";" == [';'];
    JoinSplit(s[|action| + 2..], ';');
    if |info| >= 1 && (forall k :: 0 <= k < |info| ==> ';' !in info[k]) {
      SplitJoin(info, ';');
    }
  }

  /** The hook's filter condition: a frame-introspection event whose entry
      mentions the logging package's `__init__.py`. */
  predicate IsLoggingFrame(action: string, entry: string) {
    action == FrameAction && (Contains(entry, WindowsLoggingInit) || Contains(entry, PosixLoggingInit))
  }

  /** The entry is queued unless frame omission is on and the event is a
      logging frame. */
  predicate Keeps(omitLoggingFrames: bool, action: string, info: seq<string>) {
    !omitLoggingFrames || !IsLoggingFrame(action, Format(action, info))
  }

  /** What one `audit_hook` call adds to the queue: nothing once the halt flag
      is set or when the filter drops the event, otherwise exactly the
      formatted entry. */
  function HookEntries(halted: bool, omitLoggingFrames: bool, action: string, info: seq<string>): (r: seq<string>)
    ensures |r| <= 1
    ensures |r| == 1 <==> !halted && (!omitLoggingFrames || !IsLoggingFrame(action, Format(action, info)))
    ensures |r| == 1 ==> r[0] == Format(action, info)
  {
    if !halted && Keeps(omitLoggingFrames, action, info) then [Format(action, info)] else []
  }

  /** Only the info can trigger the filter: the `"sys._getframe: "` prefix holds
      no `l`, so neither fragment can start inside it. */
  lemma LoggingFrameIffInfo(info: seq<string>)
    ensures IsLoggingFrame(FrameAction, Format(FrameAction, info)) <==>
      Contains(Join(";", info), WindowsLoggingInit) || Contains(Join(";", info), PosixLoggingInit)
  {
    var prefix := FrameAction + ": ";
    assert Format(FrameAction, info) == prefix + Join(";", info);
    assert 'l' !in prefix by {
      forall i | 0 <= i < |prefix| ensures prefix[i] != 'l' { }
    }
    ContainsAfterPrefix(prefix, Join(";", info), WindowsLoggingInit);
    ContainsAfterPrefix(prefix, Join(";", info), PosixLoggingInit);
  }

  /** An event of another action is never dropped; a frame event one of whose
      info items names the logging package's `__init__.py` is dropped exactly
      when omission is on. */
  lemma FilterDecisions(omitLoggingFrames: bool, action: string, info: seq<string>, k: int)
    ensures action != FrameAction ==> Keeps(omitLoggingFrames, action, info)
    ensures !omitLoggingFrames ==> Keeps(omitLoggingFrames, action, info)
    ensures (action == FrameAction && 0 <= k < |info|
             && (Contains(info[k], WindowsLoggingInit) || Contains(info[k], PosixLoggingInit))) ==>
      (Keeps(omitLoggingFrames, action, info) <==> !omitLoggingFrames)
  {
    if action == FrameAction && 0 <= k < |info| {
      LoggingFrameIffInfo(info);
      if Contains(info[k], WindowsLoggingInit) {
        ContainsJoin(";", info, k, WindowsLoggingInit);
      }
      if Contains(info[k], PosixLoggingInit) {
        ContainsJoin(";", info, k, PosixLoggingInit);
      }
    }
  }

  /** The relay's emission method for the configured level name. The logger's
      `audit` attribute is read first, so a logger without it raises
      (`None` here); otherwise the lower-cased name is chosen when the level is
      not literally `"AUDIT"` and the logger has an attribute of that name, and
      `audit` is kept in every other case. `loggerMethods` stands for the
      attribute names the logger object has. */
  function SelectCallback(logLevel: string, loggerMethods: set<string>): (r: Option<string>)
    ensures r.None? <==> "audit" !in loggerMethods
    ensures r.Some? ==> r.value in loggerMethods
    ensures r.Some? && (logLevel == "AUDIT" || ToLower(logLevel) !in loggerMethods) ==> r.value == "audit"
    ensures r.Some? && logLevel != "AUDIT" && ToLower(logLevel) in loggerMethods ==> r.value == ToLower(logLevel)
  {
    if "audit" !in loggerMethods then None
    else if logLevel != "AUDIT" && ToLower(logLevel) in loggerMethods then Some(ToLower(logLevel))
    else Some("audit")
  }

  /** A name differing from `"AUDIT"` only in case lands on `audit` just as
      `"AUDIT"` does. */
  lemma SelectCallbackTotal(logLevel: string, loggerMethods: set<string>)
    ensures ToUpper(logLevel) == "AUDIT" ==>
      SelectCallback(logLevel, loggerMethods) == SelectCallback("AUDIT", loggerMethods)
  {
    if ToUpper(logLevel) == "AUDIT" {
      LowerOfUpper(logLevel);
      assert ToLower("AUDIT") == "audit";
    }
  }
}
