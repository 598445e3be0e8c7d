/** What an ask may hold, and what allowing a permission prompt for its run covers. */
module AskShape {
  import opened Prelude

  datatype Kind = Approval | Question | Choice | Permission

  /** The functions the hub computes keys with: the canonical text of a shell call's input
      (cosmetic fields dropped, fields sorted) and the digest of a text. */
  datatype Env = Env(canonical: string -> string, digest: string -> string)

  ghost predicate InjectiveDigest(env: Env) {
    forall x, y :: env.digest(x) == env.digest(y) ==> x == y
  }

  datatype AskInput = AskInput(kind: string, question: string, options: seq<string>, aboutMsg: string,
                               tool: string, toolInput: string, cutByRelay: bool)

  datatype Shape = Shape(kind: Kind, options: seq<string>, tool: string, toolInput: string,
                         inputTruncated: bool, runKey: string, lookupKey: string, question: string)

  datatype Refusal = UnknownKind | NoTool | ToolTooLong | OptionsOnNonChoice | AboutOnPermission
                   | ToolOnNonPermission | OptionCount | BlankOption | LongOption | RepeatedOption

  datatype ShapeResult = Shaped(shape: Shape) | Refused(reason: Refusal)

  const MAX_TOOL_RUNES := 200
  const MAX_INPUT_BYTES := 4096
  const UTF_MAX := 4
  const MIN_OPTIONS := 2
  const MAX_OPTIONS := 8
  const MAX_OPTION_RUNES := 200

  const RUN_KEY_COMMAND := "cmd:"
  const RUN_KEY_ONCE := "once:"

  /** The agent CLIs' tools that run a command line. */
  predicate IsShell(tool: string) {
    Lower(tool) in {
      "bash", "run_command", "send_command_input", "execute", "shell", "exec", "exec_command",
      "local_shell", "powershell", "terminal", "run_terminal_cmd"
    }
  }

  predicate IsOnce(key: string) {
    HasPrefix(key, RUN_KEY_ONCE)
  }

  function Utf8Width(c: char): (w: nat)
    ensures 1 <= w <= 4
  {
    var code := c as int;
    if code < 0x80 then 1 else if code < 0x800 then 2 else if code < 0x10000 then 3 else 4
  }

  function ByteLen(s: string): nat {
    if s == "" then 0 else ByteLen(s[..|s| - 1]) + Utf8Width(s[|s| - 1])
  }

  /** The longest prefix of whole characters that fits in n bytes. */
  function CapBytes(s: string, n: nat): (r: string)
    ensures r <= s && ByteLen(r) <= n
    ensures r == s <==> ByteLen(s) <= n
    ensures ByteLen(r) < ByteLen(s) <==> n < ByteLen(s)
    ensures forall k :: |r| < k <= |s| ==> n < ByteLen(s[..k])
  {
    if ByteLen(s) <= n then s
    else
      var shorter := s[..|s| - 1];
      var r := CapBytes(shorter, n);
      assert s[..|s|] == s;
      assert forall k :: |r| < k < |s| ==> s[..k] == shorter[..k];
      r
  }

  /** The key of a permission prompt for tool with input as it was sent. nonce is the fresh id a
      key that must match nothing else is made from. */
  function RunKeyFor(env: Env, tool: string, input: string, nonce: string): string {
    if !IsShell(tool) then ""
    else if ByteLen(input) > MAX_INPUT_BYTES - UTF_MAX then RUN_KEY_ONCE + nonce
    else RUN_KEY_COMMAND + env.digest(Lower(tool) + "\0" + env.canonical(input))
  }

  function KindOf(raw: string): Option<Kind> {
    var kind := Lower(Trim(raw));
    if kind == "" || kind == "approval" then Some(Approval)
    else if kind == "question" then Some(Question)
    else if kind == "choice" then Some(Choice)
    else if kind == "permission" then Some(Permission)
    else None
  }

  function ShapePermission(env: Env, input: AskInput, nonce: string): ShapeResult {
    var tool := Trim(input.tool);
    if tool == "" then Refused(NoTool)
    else if |tool| > MAX_TOOL_RUNES then Refused(ToolTooLong)
    else if |input.options| > 0 then Refused(OptionsOnNonChoice)
    else if Trim(input.aboutMsg) != "" then Refused(AboutOnPermission)
    else
      var full := Trim(input.toolInput);
      var shown := CapBytes(full, MAX_INPUT_BYTES);
      var truncated := input.cutByRelay || ByteLen(shown) < ByteLen(full);
      var whole := RunKeyFor(env, tool, full, nonce);
      var runKey := if truncated then RUN_KEY_ONCE + nonce else whole;
      var lookupKey := if truncated && IsShell(tool) then runKey else whole;
      var question := if Trim(input.question) == "" then "Allow " + tool + "?" else Trim(input.question);
      Shaped(Shape(Permission, [], tool, shown, truncated, runKey, lookupKey, question))
  }

  function AllTrimmed(raw: seq<string>): seq<string> {
    seq(|raw|, i requires 0 <= i < |raw| => Trim(raw[i]))
  }

  /** No option is blank, too long, or listed before. */
  predicate OptionsFit(options: seq<string>, seen: seq<string>) {
    && (forall i :: 0 <= i < |options| ==> 0 < |options[i]| <= MAX_OPTION_RUNES && options[i] !in seen)
    && (forall i, j :: 0 <= i < j < |options| ==> options[i] != options[j])
  }

  lemma FitOneByOne(option: string, rest: seq<string>, seen: seq<string>)
    ensures OptionsFit([option] + rest, seen)
            <==> 0 < |option| <= MAX_OPTION_RUNES && option !in seen && OptionsFit(rest, seen + [option])
  {
    var all := [option] + rest;
    assert all[0] == option;
    assert forall i :: 0 <= i < |rest| ==> all[i + 1] == rest[i];
    if OptionsFit(all, seen) {
      forall i | 0 <= i < |rest| ensures 0 < |rest[i]| <= MAX_OPTION_RUNES && rest[i] !in seen + [option] {
        assert all[i + 1] == rest[i] && all[0] != all[i + 1];
      }
      forall i, j | 0 <= i < j < |rest| ensures rest[i] != rest[j] { assert all[i + 1] != all[j + 1]; }
    }
  }

  /** A choice's options, trimmed; the first one that does not fit refuses the ask. */
  function ShapeOptions(raw: seq<string>, seen: seq<string>): (r: (Option<Refusal>, seq<string>))
    ensures r.0.None? <==> OptionsFit(AllTrimmed(raw), seen)
    ensures r.0.None? ==> r.1 == seen + AllTrimmed(raw)
    decreases |raw|
  {
    if raw == [] then (None, seen)
    else
      var option := Trim(raw[0]);
      FitOneByOne(option, AllTrimmed(raw[1..]), seen);
      assert AllTrimmed(raw) == [option] + AllTrimmed(raw[1..]);
      if option == "" then (Some(BlankOption), seen)
      else if |option| > MAX_OPTION_RUNES then (Some(LongOption), seen)
      else if option in seen then (Some(RepeatedOption), seen)
      else ShapeOptions(raw[1..], seen + [option])
  }

  /** The validated kind of an ask and the fields that go with it. */
  function ShapeAsk(env: Env, input: AskInput, nonce: string): ShapeResult {
    match KindOf(input.kind)
    case None => Refused(UnknownKind)
    case Some(Permission) => ShapePermission(env, input, nonce)
    case Some(kind) =>
      if Trim(input.tool) != "" || Trim(input.toolInput) != "" then Refused(ToolOnNonPermission)
      else if kind != Choice then
        if |input.options| > 0 then Refused(OptionsOnNonChoice)
        else Shaped(Shape(kind, [], "", "", false, "", "", Trim(input.question)))
      else if |input.options| < MIN_OPTIONS || |input.options| > MAX_OPTIONS then Refused(OptionCount)
      else
        var (refusal, options) := ShapeOptions(input.options, []);
        match refusal
        case Some(reason) => Refused(reason)
        case None => Shaped(Shape(kind, options, "", "", false, "", "", Trim(input.question)))
  }

  /** The relation the lookup of an earlier allow uses: an allowed prompt's stored key against the
      key a new prompt looks up. */
  predicate LookupCovers(tool: string, runKey: string, newTool: string, newLookupKey: string) {
    !IsOnce(newLookupKey) && tool == newTool && runKey == newLookupKey
  }

  /** The relation the release of waiting prompts uses: the key just allowed against the keys stored
      with the prompts that wait. */
  predicate ReleaseCovers(tool: string, runKey: string, waitingTool: string, waitingRunKey: string) {
    && !IsOnce(runKey)
    && tool == waitingTool
    && (waitingRunKey == runKey || (runKey == "" && !IsShell(tool) && IsOnce(waitingRunKey)))
  }

  /** The whole call was seen, and is short enough that nothing can have cut it on the way. */
  predicate SeenWhole(input: AskInput) {
    && !input.cutByRelay
    && ByteLen(Trim(input.toolInput))
       <= if IsShell(Trim(input.tool)) then MAX_INPUT_BYTES - UTF_MAX else MAX_INPUT_BYTES
  }

  /** What allowing prompt a for the run is meant to cover, said of the calls themselves and of no
      key: the same tool, a call the person saw whole, and for a shell the same command. */
  predicate IntendedCovers(env: Env, a: AskInput, b: AskInput) {
    && Trim(a.tool) == Trim(b.tool)
    && SeenWhole(a)
    && (IsShell(Trim(a.tool)) ==>
          SeenWhole(b) && env.canonical(Trim(a.toolInput)) == env.canonical(Trim(b.toolInput)))
  }

  /** Keys as shaped for one prompt: the facts every later argument rests on. */
  predicate KeysFit(tool: string, runKey: string, lookupKey: string) {
    && (IsShell(tool) ==> runKey != "" && lookupKey == runKey)
    && (!IsShell(tool) ==> lookupKey == "" && (runKey == "" || IsOnce(runKey)))
  }

  lemma ShapedKeysFit(env: Env, input: AskInput, nonce: string)
    ensures var r := ShapeAsk(env, input, nonce);
            r.Shaped? ==> (r.shape.kind == Permission <==> KindOf(input.kind) == Some(Permission))
                          && (r.shape.kind == Permission
                              ==> r.shape.tool != "" && KeysFit(r.shape.tool, r.shape.runKey, r.shape.lookupKey))
                          && (r.shape.kind != Permission ==> r.shape.tool == "")
  {
    var r := ShapeAsk(env, input, nonce);
    if r.Shaped? && r.shape.kind == Permission {
      var tool := Trim(input.tool);
      assert RUN_KEY_ONCE <= RUN_KEY_ONCE + nonce;
      if IsShell(tool) {
        assert |RunKeyFor(env, tool, Trim(input.toolInput), nonce)| >= 4;
      }
    }
  }

  lemma LookupIsRelease(tool: string, runKey: string, newTool: string, newRunKey: string, newLookupKey: string)
    requires KeysFit(newTool, newRunKey, newLookupKey)
    requires IsShell(tool) ==> runKey != ""
    ensures LookupCovers(tool, runKey, newTool, newLookupKey) <==> ReleaseCovers(tool, runKey, newTool, newRunKey)
  {
  }

  lemma CommandKeys(env: Env, a: AskInput, b: AskInput)
    requires InjectiveDigest(env)
    requires Trim(a.tool) == Trim(b.tool)
    ensures env.digest(Lower(Trim(a.tool)) + "\0" + env.canonical(Trim(a.toolInput)))
            == env.digest(Lower(Trim(b.tool)) + "\0" + env.canonical(Trim(b.toolInput)))
            <==> env.canonical(Trim(a.toolInput)) == env.canonical(Trim(b.toolInput))
  {
    var head := Lower(Trim(a.tool)) + "\0";
    var x, y := env.canonical(Trim(a.toolInput)), env.canonical(Trim(b.toolInput));
    assert (head + x)[|head|..] == x && (head + y)[|head|..] == y;
  }

  /** The three readings of "allowed for this run" agree on every pair of prompts that can be built:
      the lookup, the release, and what was meant. */
  lemma CoverageIsOneRelation(env: Env, a: AskInput, b: AskInput, na: string, nb: string)
    requires InjectiveDigest(env)
    requires ShapePermission(env, a, na).Shaped? && ShapePermission(env, b, nb).Shaped?
    ensures var sa, sb := ShapePermission(env, a, na).shape, ShapePermission(env, b, nb).shape;
            && (LookupCovers(sa.tool, sa.runKey, sb.tool, sb.lookupKey) <==> IntendedCovers(env, a, b))
            && (ReleaseCovers(sa.tool, sa.runKey, sb.tool, sb.runKey) <==> IntendedCovers(env, a, b))
  {
    var sa, sb := ShapePermission(env, a, na).shape, ShapePermission(env, b, nb).shape;
    KeyForm(env, a, na);
    KeyForm(env, b, nb);
    LookupIsRelease(sa.tool, sa.runKey, sb.tool, sb.runKey, sb.lookupKey);
    if sa.tool == sb.tool && IsShell(sa.tool) && SeenWhole(a) && SeenWhole(b) {
      CommandKeys(env, a, b);
      var da := env.digest(Lower(Trim(a.tool)) + "\0" + env.canonical(Trim(a.toolInput)));
      var db := env.digest(Lower(Trim(b.tool)) + "\0" + env.canonical(Trim(b.toolInput)));
      assert (RUN_KEY_COMMAND + da)[4..] == da && (RUN_KEY_COMMAND + db)[4..] == db;
    }
  }

  /** Which form a prompt's keys take, by whether the whole call was seen. */
  lemma KeyForm(env: Env, a: AskInput, nonce: string)
    requires ShapePermission(env, a, nonce).Shaped?
    ensures var s := ShapePermission(env, a, nonce).shape;
            && KeysFit(s.tool, s.runKey, s.lookupKey)
            && (IsOnce(s.runKey) <==> !SeenWhole(a))
            && (SeenWhole(a) && IsShell(s.tool) ==>
                  s.runKey == RUN_KEY_COMMAND + env.digest(Lower(s.tool) + "\0" + env.canonical(Trim(a.toolInput))))
            && (SeenWhole(a) && !IsShell(s.tool) ==> s.runKey == "")
  {
    assert RUN_KEY_ONCE <= RUN_KEY_ONCE + nonce;
    var d := env.digest(Lower(Trim(a.tool)) + "\0" + env.canonical(Trim(a.toolInput)));
    assert (RUN_KEY_COMMAND + d)[0] == 'c' && RUN_KEY_ONCE[0] == 'o';
  }

  datatype RunScope = ToolScope | CommandScope | OnceScope

  /** What the person is told an "allow for this run" would cover. */
  function ScopeShown(truncated: bool, runKey: string): RunScope {
    if truncated then OnceScope
    else if HasPrefix(runKey, RUN_KEY_COMMAND) then CommandScope
    else if IsOnce(runKey) then OnceScope
    else ToolScope
  }

  /** The person is told the truth: "once" covers no other prompt, "tool" every prompt of the tool,
      "command" exactly the prompts for the same whole command. */
  lemma ScopeShownIsScopeApplied(env: Env, a: AskInput, b: AskInput, na: string, nb: string)
    requires InjectiveDigest(env)
    requires ShapePermission(env, a, na).Shaped? && ShapePermission(env, b, nb).Shaped?
    ensures var sa, sb := ShapePermission(env, a, na).shape, ShapePermission(env, b, nb).shape;
            var covered := LookupCovers(sa.tool, sa.runKey, sb.tool, sb.lookupKey);
            match ScopeShown(sa.inputTruncated, sa.runKey)
            case OnceScope => !covered
            case ToolScope => covered <==> sa.tool == sb.tool
            case CommandScope => covered <==> sa.tool == sb.tool && SeenWhole(b)
                                              && env.canonical(Trim(a.toolInput)) == env.canonical(Trim(b.toolInput))
  {
    CoverageIsOneRelation(env, a, b, na, nb);
    KeyForm(env, a, na);
    var d := env.digest(Lower(Trim(a.tool)) + "\0" + env.canonical(Trim(a.toolInput)));
    assert RUN_KEY_COMMAND <= RUN_KEY_COMMAND + d;
    assert forall nonce: string :: (RUN_KEY_ONCE + nonce)[0] == 'o' && RUN_KEY_COMMAND[0] == 'c';
  }
  /** How many bytes a character takes in UTF-8 (section 3 of RFC 3629). */
  lemma WidthExactly(c: char)
    ensures var code := c as int;
            && (0 <= code <= 0x7F ==> Utf8Width(c) == 1) && (0x80 <= code <= 0x7FF ==> Utf8Width(c) == 2)
            && (0x800 <= code <= 0xFFFF ==> Utf8Width(c) == 3) && (0x1_0000 <= code <= 0x10_FFFF ==> Utf8Width(c) == 4)
  {
  }

  /** The kind an ask names, in any case, with white space around it; an approval when it names none. */
  lemma KindExactly(raw: string)
    ensures var kind := Lower(Trim(raw));
            && (KindOf(raw) == Some(Approval) <==> kind in {"", "approval"})
            && (KindOf(raw) == Some(Question) <==> kind == "question")
            && (KindOf(raw) == Some(Choice) <==> kind == "choice")
            && (KindOf(raw) == Some(Permission) <==> kind == "permission")
  {
  }

  /** Which asks are accepted: a permission prompt names a tool of at most 200 characters and has neither options nor
      a message it is about; any other ask names no tool and no call; and a choice, and nothing else, has options,
      two to eight that fit. */
  lemma AcceptedExactly(env: Env, input: AskInput, nonce: string)
    ensures var tool, call := Trim(input.tool), Trim(input.toolInput);
            ShapeAsk(env, input, nonce).Shaped?
            <==> match KindOf(input.kind)
                 case None => false
                 case Some(Permission) => 0 < |tool| <= 200 && input.options == [] && Trim(input.aboutMsg) == ""
                 case Some(Choice) =>
                   tool == "" && call == "" && 2 <= |input.options| <= 8 && OptionsFit(AllTrimmed(input.options), [])
                 case Some(_) => tool == "" && call == "" && input.options == []
  {
    hide OptionsFit, AllTrimmed, RunKeyFor, IsShell, CapBytes;
  }

  /** And what is kept of one that is accepted. */
  lemma ShapedExactly(env: Env, input: AskInput, nonce: string)
    requires ShapeAsk(env, input, nonce).Shaped?
    ensures var s := ShapeAsk(env, input, nonce).shape;
            && KindOf(input.kind) == Some(s.kind)
            && s.options == (if s.kind == Choice then AllTrimmed(input.options) else [])
            && (s.kind != Permission ==> s.tool == "" && s.toolInput == "" && !s.inputTruncated
                                         && s.runKey == "" && s.lookupKey == "" && s.question == Trim(input.question))
            && (s.kind == Permission ==>
                  && s.tool == Trim(input.tool) && s.toolInput <= Trim(input.toolInput) && ByteLen(s.toolInput) <= 4096
                  && (s.inputTruncated <==> input.cutByRelay || ByteLen(Trim(input.toolInput)) > 4096)
                  && (ByteLen(Trim(input.toolInput)) <= 4096 ==> s.toolInput == Trim(input.toolInput))
                  && s.question == if Trim(input.question) == "" then "Allow " + Trim(input.tool) + "?"
                                   else Trim(input.question))
  {
    hide OptionsFit, RunKeyFor, IsShell, ByteLen, AllTrimmed;
    if KindOf(input.kind) == Some(Choice) {
      assert [] + AllTrimmed(input.options) == AllTrimmed(input.options);
    }
  }

  /** The scope shown: the command alone for a shell's whole command, every call of the tool for any other call seen
      whole, and this call only for one that was cut. */
  lemma ScopeShownExactly(env: Env, a: AskInput, nonce: string)
    requires ShapePermission(env, a, nonce).Shaped?
    ensures var s := ShapePermission(env, a, nonce).shape;
            ScopeShown(s.inputTruncated, s.runKey)
            == if !SeenWhole(a) then OnceScope else if IsShell(Trim(a.tool)) then CommandScope else ToolScope
  {
    KeyForm(env, a, nonce);
    var d := env.digest(Lower(Trim(a.tool)) + "\0" + env.canonical(Trim(a.toolInput)));
    assert RUN_KEY_COMMAND <= RUN_KEY_COMMAND + d && RUN_KEY_COMMAND[0] == 'c' && RUN_KEY_ONCE[0] == 'o';
  }
}
