/** Hook command lines, and the readings that give their words back. */
module ShellQuote {
  import opened Prelude

  datatype Shell = Posix | PowerShell

  predicate AlphaNum(c: char) {
    'A' <= c <= 'Z' || 'a' <= c <= 'z' || '0' <= c <= '9'
  }

  predicate PosixChar(c: char) {
    AlphaNum(c) || c in "/._:=@,+%-"
  }

  predicate PsExeChar(c: char) {
    AlphaNum(c) || c in "\\:._-"
  }

  predicate PsArgChar(c: char) {
    AlphaNum(c) || c in "\\/:._=-"
  }

  predicate CmdChar(c: char) {
    AlphaNum(c) || c in "/._:=@,+-"
  }

  /** What needs no quoting: some characters, all of them plain. */
  predicate PosixPlain(s: string) {
    s != "" && forall i :: 0 <= i < |s| ==> PosixChar(s[i])
  }

  predicate PsExePlain(s: string) {
    s != "" && forall i :: 0 <= i < |s| ==> PsExeChar(s[i])
  }

  predicate PsArgPlain(s: string) {
    s != "" && forall i :: 0 <= i < |s| ==> PsArgChar(s[i])
  }

  predicate CmdPlain(s: string) {
    s != "" && forall i :: 0 <= i < |s| ==> CmdChar(s[i])
  }

  /** Every c of s written as other. */
  function Replaced(s: string, c: char, other: string): string {
    if s == "" then "" else (if s[0] == c then other else [s[0]]) + Replaced(s[1..], c, other)
  }

  function PosixWord(s: string): string {
    if PosixPlain(s) then s else "'" + Replaced(s, '\'', "'\\''") + "'"
  }

  function PsQuote(s: string): string {
    "'" + Replaced(s, '\'', "''") + "'"
  }

  function PsExe(s: string): string {
    if PsExePlain(s) then s else "& " + PsQuote(s)
  }

  function PsArg(s: string): string {
    if PsArgPlain(s) then s else PsQuote(s)
  }

  function Joined(parts: seq<string>): string {
    if parts == [] then "" else if |parts| == 1 then parts[0] else parts[0] + " " + Joined(parts[1..])
  }

  function Slashed(windows: bool, exe: string): string {
    if windows then Replaced(exe, '\\', "/") else exe
  }

  function PosixParts(words: seq<string>): seq<string> {
    seq(|words|, i requires 0 <= i < |words| => PosixWord(words[i]))
  }

  function PsParts(exe: string, args: seq<string>): seq<string> {
    [PsExe(exe)] + seq(|args|, i requires 0 <= i < |args| => PsArg(args[i]))
  }

  function CommandLine(shell: Shell, windows: bool, exe: string, args: seq<string>): string {
    match shell
    case PowerShell => Joined(PsParts(exe, args))
    case Posix => Joined(PosixParts([Slashed(windows, exe)] + args))
  }

  // ---------------------------------------------------------------- how a shell reads a line

  function Flushed(word: Option<string>): seq<string> {
    if word == None then [] else [word.value]
  }

  function Grown(word: Option<string>, c: char): Option<string> {
    Some((if word == None then "" else word.value) + [c])
  }

  /** The words of a line, by the quoting rules of the POSIX shell (section 2.2 of the Shell Command Language);
      word is the one being read. None where the line holds anything else the shell acts on. */
  function Split(s: string, word: Option<string>): Option<seq<string>>
    decreases |s|, 1
  {
    if s == "" then Some(Flushed(word))
    else if s[0] == ' ' || s[0] == '\t' then
      var rest := Split(s[1..], None);
      if rest == None then None else Some(Flushed(word) + rest.value)
    else if s[0] == '\'' then Quoted(s[1..], if word == None then "" else word.value)
    else if s[0] == '\\' then
      if |s| < 2 then None
      else if s[1] == '\n' then Split(s[2..], word)
      else Split(s[2..], Grown(word, s[1]))
    else if PosixChar(s[0]) then Split(s[1..], Grown(word, s[0]))
    else None
  }

  /** Inside single quotes nothing is special but the quote that ends them. */
  function Quoted(s: string, word: string): Option<seq<string>>
    decreases |s|, 0
  {
    if s == "" then None
    else if s[0] == '\'' then Split(s[1..], Some(word))
    else Quoted(s[1..], word + [s[0]])
  }

  /** What a word read is followed by: the end of the line, or a space and more words. */
  predicate Ends(rest: string) {
    rest == "" || rest[0] == ' '
  }

  lemma {:induction false} PlainIsRead(s: string, rest: string, word: string)
    requires forall i :: 0 <= i < |s| ==> PosixChar(s[i])
    ensures Split(s + rest, Some(word)) == Split(rest, Some(word + s))
    decreases |s|
  {
    if s == "" {
      assert s + rest == rest && word + s == word;
    } else {
      assert (s + rest)[1..] == s[1..] + rest;
      PlainIsRead(s[1..], rest, word + [s[0]]);
      assert word + [s[0]] + s[1..] == word + s;
    }
  }

  lemma {:induction false} QuotedIsRead(s: string, rest: string, word: string)
    ensures Quoted(Replaced(s, '\'', "'\\''") + "'" + rest, word) == Split(rest, Some(word + s))
    decreases |s|
  {
    var esc := "'\\''";
    if s == "" {
      assert Replaced(s, '\'', esc) + "'" + rest == "'" + rest && ("'" + rest)[1..] == rest && word + s == word;
    } else {
      var tail := Replaced(s[1..], '\'', esc) + "'" + rest;
      QuotedIsRead(s[1..], rest, word + [s[0]]);
      assert word + [s[0]] + s[1..] == word + s;
      if s[0] == '\'' {
        assert Replaced(s, '\'', esc) + "'" + rest == esc + tail;
        EscapeIsRead(tail, word);
      } else {
        assert Replaced(s, '\'', esc) + "'" + rest == [s[0]] + tail;
        assert ([s[0]] + tail)[1..] == tail;
      }
    }
  }

  /** A quote inside single quotes: they end, an escaped quote follows, and they begin again. */
  lemma EscapeIsRead(tail: string, word: string)
    ensures Quoted("'\\''" + tail, word) == Quoted(tail, word + ['\''])
  {
    var line := "'\\''" + tail;
    assert line[1..] == "\\''" + tail && line[1..][2..] == "'" + tail && line[1..][2..][1..] == tail;
    assert line[1..][0] == '\\' && line[1..][1] == '\'';
    assert Quoted(line, word) == Split(line[1..], Some(word));
    assert Split(line[1..], Some(word)) == Split(line[1..][2..], Some(word + ['\'']));
  }

  lemma FirstIsRead(c: char, rest: string)
    requires PosixChar(c)
    ensures Split([c] + rest, None) == Split(rest, Some([c]))
  {
    assert ([c] + rest)[1..] == rest && "" + [c] == [c];
  }

  lemma PlainWordIsRead(s: string, rest: string)
    requires PosixPlain(s)
    ensures Split(s + rest, None) == Split(rest, Some(s))
  {
    hide Split;
    assert [s[0]] + s[1..] == s && [s[0]] + (s[1..] + rest) == s + rest;
    FirstIsRead(s[0], s[1..] + rest);
    PlainIsRead(s[1..], rest, [s[0]]);
  }

  lemma QuotedWordIsRead(s: string, rest: string)
    ensures Split("'" + Replaced(s, '\'', "'\\''") + "'" + rest, None) == Split(rest, Some(s))
  {
    hide Replaced;
    var inner := Replaced(s, '\'', "'\\''") + "'" + rest;
    var line := "'" + Replaced(s, '\'', "'\\''") + "'" + rest;
    assert line[0] == '\'' && line[1..] == inner;
    assert Split(line, None) == Quoted(inner, "");
    QuotedIsRead(s, rest, "");
    assert "" + s == s;
  }

  /** A word as written is read as itself, whatever it holds. */
  lemma WordIsRead(s: string, rest: string)
    ensures Split(PosixWord(s) + rest, None) == Split(rest, Some(s))
  {
    hide Split, Replaced;
    if PosixPlain(s) { PlainWordIsRead(s, rest); } else { QuotedWordIsRead(s, rest); }
  }

  lemma {:induction false} LineIsRead(words: seq<string>)
    ensures Split(Joined(PosixParts(words)), None) == Some(words)
    decreases |words|
  {
    hide PosixWord;
    var parts := PosixParts(words);
    if |words| == 1 {
      WordIsRead(words[0], "");
      assert parts[0] + "" == parts[0] && Joined(parts) == parts[0] && words == [words[0]];
    } else if |words| > 1 {
      assert parts[1..] == PosixParts(words[1..]);
      var rest := " " + Joined(parts[1..]);
      assert Joined(parts) == parts[0] + rest;
      WordIsRead(words[0], rest);
      assert rest[0] == ' ' && rest[1..] == Joined(parts[1..]);
      LineIsRead(words[1..]);
      assert Split(rest, Some(words[0])) == Some(Flushed(Some(words[0])) + words[1..]);
      assert Flushed(Some(words[0])) + words[1..] == words;
    }
  }

  /** Splitting a hook's line for sh gives back its executable and arguments, whatever they hold; on Windows
      the executable's backslashes have become slashes. */
  lemma PosixRoundTrip(windows: bool, exe: string, args: seq<string>)
    ensures Split(CommandLine(Posix, windows, exe, args), None) == Some([Slashed(windows, exe)] + args)
  {
    LineIsRead([Slashed(windows, exe)] + args);
  }

  lemma {:induction false} SlashedHasNoBackslash(s: string)
    ensures '\\' !in Replaced(s, '\\', "/") && |Replaced(s, '\\', "/")| == |s|
    ensures forall i :: 0 <= i < |s| ==> Replaced(s, '\\', "/")[i] == if s[i] == '\\' then '/' else s[i]
  {
    if s != "" {
      SlashedHasNoBackslash(s[1..]);
    }
  }

  // ---------------------------------------------------------------- PowerShell

  /** A single-quoted string from after its first quote: its value and what follows it. A doubled quote
      stands for one. */
  function PsUnquote(s: string): Option<(string, string)> {
    if s == "" then None
    else if s[0] != '\'' then
      match PsUnquote(s[1..])
      case None => None
      case Some((value, rest)) => Some(([s[0]] + value, rest))
    else if |s| > 1 && s[1] == '\'' then
      match PsUnquote(s[2..])
      case None => None
      case Some((value, rest)) => Some((['\''] + value, rest))
    else Some(("", s[1..]))
  }

  /** The bare characters a line starts with. */
  function Bare(s: string): string {
    if s != "" && (PsExeChar(s[0]) || PsArgChar(s[0])) then [s[0]] + Bare(s[1..]) else ""
  }

  lemma {:induction false} BareIsPrefix(s: string)
    ensures |Bare(s)| <= |s|
  {
    if s != "" {
      BareIsPrefix(s[1..]);
    }
  }

  /** One word, quoted or bare, and what follows it. */
  function PsWord(s: string): Option<(string, string)> {
    if s != "" && s[0] == '\'' then PsUnquote(s[1..])
    else
      BareIsPrefix(s);
      if Bare(s) == "" then None else Some((Bare(s), s[|Bare(s)|..]))
  }

  /** The words of a PowerShell command with a space between each two. */
  function PsSplit(s: string, fuel: nat): Option<seq<string>>
    decreases fuel
  {
    match PsWord(s)
    case None => None
    case Some((word, rest)) =>
      if rest == "" then Some([word])
      else if rest[0] != ' ' || fuel == 0 then None
      else
        match PsSplit(rest[1..], fuel - 1)
        case None => None
        case Some(more) => Some([word] + more)
  }

  /** A line runs its first word when that is bare, or when the call operator comes before it. */
  function PsRead(s: string): Option<seq<string>> {
    if "& '" <= s then PsSplit(s[2..], |s|)
    else if s != "" && s[0] == '\'' then None
    else PsSplit(s, |s|)
  }

  lemma PsCharIsRead(c: char, tail: string, value: string, rest: string)
    requires PsUnquote(tail) == Some((value, rest))
    ensures PsUnquote((if c == '\'' then "''" else [c]) + tail) == Some(([c] + value, rest))
  {
    if c == '\'' {
      assert ("''" + tail)[2..] == tail;
    } else {
      assert ([c] + tail)[1..] == tail;
    }
  }

  lemma {:induction false} PsQuotedIsRead(s: string, rest: string)
    requires Ends(rest)
    ensures PsUnquote(Replaced(s, '\'', "''") + "'" + rest) == Some((s, rest))
    decreases |s|
  {
    if s == "" {
      assert Replaced(s, '\'', "''") + "'" + rest == "'" + rest && ("'" + rest)[1..] == rest;
    } else {
      hide PsUnquote;
      var head := if s[0] == '\'' then "''" else [s[0]];
      var tail := Replaced(s[1..], '\'', "''") + "'" + rest;
      PsQuotedIsRead(s[1..], rest);
      PsCharIsRead(s[0], tail, s[1..], rest);
      assert Replaced(s, '\'', "''") + "'" + rest == head + tail;
      assert [s[0]] + s[1..] == s;
    }
  }

  lemma {:induction false} BareIsRead(s: string, rest: string)
    requires Ends(rest) && forall i :: 0 <= i < |s| ==> PsExeChar(s[i]) || PsArgChar(s[i])
    ensures Bare(s + rest) == s
  {
    if s == "" {
      assert s + rest == rest;
    } else {
      assert (s + rest)[1..] == s[1..] + rest;
      BareIsRead(s[1..], rest);
    }
  }

  lemma PsQuoteIsRead(s: string, rest: string)
    requires Ends(rest)
    ensures PsWord(PsQuote(s) + rest) == Some((s, rest))
  {
    var line := PsQuote(s) + rest;
    assert line[1..] == Replaced(s, '\'', "''") + "'" + rest;
    PsQuotedIsRead(s, rest);
  }

  lemma PsBareIsRead(s: string, rest: string)
    requires Ends(rest) && s != "" && forall i :: 0 <= i < |s| ==> PsExeChar(s[i]) || PsArgChar(s[i])
    ensures PsWord(s + rest) == Some((s, rest)) && s[0] != '\''
  {
    BareIsRead(s, rest);
    assert (s + rest)[0] == s[0] && (s + rest)[|s|..] == rest;
  }

  /** parts[i] is words[i] as one PowerShell word. */
  predicate PsWritten(parts: seq<string>, words: seq<string>) {
    && |parts| == |words|
    && forall i :: 0 <= i < |words| ==>
         || parts[i] == PsArg(words[i]) || parts[i] == PsQuote(words[i])
         || (parts[i] == words[i] && PsExePlain(words[i]))
  }

  lemma PsPartIsRead(part: string, word: string, rest: string)
    requires Ends(rest) && PsWritten([part], [word])
    ensures PsWord(part + rest) == Some((word, rest))
  {
    assert [part][0] == PsArg(word) || [part][0] == PsQuote(word) || ([part][0] == word && PsExePlain(word));
    if part == PsQuote(word) {
      PsQuoteIsRead(word, rest);
    } else {
      PsBareIsRead(word, rest);
    }
  }

  lemma {:induction false} PsPartsAreRead(parts: seq<string>, words: seq<string>, fuel: nat)
    requires PsWritten(parts, words) && words != [] && fuel >= |words|
    ensures PsSplit(Joined(parts), fuel) == Some(words)
    decreases |words|
  {
    hide PsWord, PsArg, PsQuote, PsExePlain;
    assert PsWritten([parts[0]], [words[0]]);
    if |words| == 1 {
      PsPartIsRead(parts[0], words[0], "");
      assert parts[0] + "" == parts[0] && Joined(parts) == parts[0] && words == [words[0]];
    } else {
      var rest := " " + Joined(parts[1..]);
      assert Joined(parts) == parts[0] + rest && rest[1..] == Joined(parts[1..]);
      PsPartIsRead(parts[0], words[0], rest);
      PsPartsAreRead(parts[1..], words[1..], fuel - 1);
      assert [words[0]] + words[1..] == words;
    }
  }

  lemma {:induction false} JoinedIsLong(parts: seq<string>)
    requires forall i :: 0 <= i < |parts| ==> parts[i] != ""
    ensures |Joined(parts)| >= |parts|
  {
    if |parts| > 1 {
      JoinedIsLong(parts[1..]);
    }
  }

  lemma JoinedFirst(first: string, head: string, rest: seq<string>)
    ensures Joined([first + head] + rest) == first + Joined([head] + rest)
  {
    assert ([first + head] + rest)[1..] == rest == ([head] + rest)[1..];
  }

  /** The words with the executable as it is quoted, the call operator left aside. */
  function PsQuoted(exe: string, args: seq<string>): seq<string> {
    [if PsExePlain(exe) then exe else PsQuote(exe)] + seq(|args|, i requires 0 <= i < |args| => PsArg(args[i]))
  }

  lemma PsQuotedAreRead(exe: string, args: seq<string>, fuel: nat)
    requires fuel >= |args| + 1
    ensures PsSplit(Joined(PsQuoted(exe, args)), fuel) == Some([exe] + args)
  {
    hide PsSplit, PsArg, PsQuote, PsExePlain, Joined;
    assert PsWritten(PsQuoted(exe, args), [exe] + args);
    PsPartsAreRead(PsQuoted(exe, args), [exe] + args, fuel);
  }

  /** The same for PowerShell: a quoted executable comes back after the call operator that runs it. */
  lemma PowerShellRoundTrip(windows: bool, exe: string, args: seq<string>)
    ensures PsRead(CommandLine(PowerShell, windows, exe, args)) == Some([exe] + args)
  {
    hide PsSplit, PsArg, PsQuote, PsExePlain, Joined;
    var quoted := PsQuoted(exe, args);
    var line := CommandLine(PowerShell, windows, exe, args);
    LongEnough(line, quoted, exe, args);
    PsQuotedAreRead(exe, args, |line|);
    if PsExePlain(exe) {
      assert PsParts(exe, args) == quoted;
      StartsBare(quoted, exe);
    } else {
      JoinedFirst("& ", PsQuote(exe), quoted[1..]);
      assert quoted == [PsQuote(exe)] + quoted[1..] && PsParts(exe, args) == ["& " + PsQuote(exe)] + quoted[1..];
      StartsQuoted(quoted, exe);
      assert line == "& " + Joined(quoted) && line[2..] == Joined(quoted);
    }
  }

  lemma StartsBare(quoted: seq<string>, exe: string)
    requires quoted != [] && quoted[0] == exe && PsExePlain(exe)
    ensures Joined(quoted) != "" && Joined(quoted)[0] == exe[0] && PsExeChar(exe[0])
  {
  }

  lemma LongEnough(line: string, quoted: seq<string>, exe: string, args: seq<string>)
    requires line == Joined(PsParts(exe, args)) && |quoted| == |args| + 1
    ensures |line| >= |quoted|
  {
    JoinedIsLong(PsParts(exe, args));
  }

  lemma StartsQuoted(quoted: seq<string>, exe: string)
    requires quoted != [] && quoted[0] == PsQuote(exe)
    ensures Joined(quoted) != "" && Joined(quoted)[0] == '\''
  {
  }

  /** The line built word by word. */
  method ShellCmd(shell: Shell, windows: bool, exe: string, args: seq<string>) returns (line: string)
    ensures line == CommandLine(shell, windows, exe, args)
  {
    var parts: seq<string> := [];
    if shell == PowerShell {
      parts := [PsExe(exe)];
      for i := 0 to |args|
        invariant parts == PsParts(exe, args[..i])
      {
        parts := parts + [PsArg(args[i])];
      }
      assert args[..|args|] == args;
    } else {
      var words := [Slashed(windows, exe)] + args;
      for i := 0 to |words|
        invariant parts == PosixParts(words[..i])
      {
        parts := parts + [PosixWord(words[i])];
      }
      assert words[..|words|] == words;
    }
    line := Joined(parts);
  }

  // ---------------------------------------------------------------- a shell that quotes nothing

  /** A hook line for a CLI that reads backslash escapes itself and, on Windows, can quote nothing: None when
      the words cannot be written so. */
  function UnescapedLine(windows: bool, exe: string, args: seq<string>): Option<string> {
    if !windows then
      var line := CommandLine(Posix, false, exe, args);
      if '\\' in line then None else Some(line)
    else
      var words := [Slashed(true, exe)] + args;
      if forall i :: 0 <= i < |words| ==> CmdPlain(words[i]) then Some(Joined(words)) else None
  }

  lemma {:induction false} ReplacedHolds(s: string)
    ensures '\\' in Replaced(s, '\'', "'\\''") <==> '\'' in s || '\\' in s
  {
    if s != "" {
      ReplacedHolds(s[1..]);
      var head, rest := if s[0] == '\'' then "'\\''" else [s[0]], Replaced(s[1..], '\'', "'\\''");
      assert s == [s[0]] + s[1..];
      assert '\\' in head <==> s[0] == '\'' || s[0] == '\\' by { assert "'\\''"[1] == '\\'; }
    }
  }

  lemma BackslashWord(s: string)
    ensures '\\' in PosixWord(s) <==> '\'' in s || '\\' in s
  {
    ReplacedHolds(s);
    if PosixPlain(s) {
      assert forall i :: 0 <= i < |s| ==> s[i] != '\'' && s[i] != '\\';
    }
  }

  lemma {:induction false} BackslashLine(parts: seq<string>)
    ensures '\\' in Joined(parts) <==> exists i :: 0 <= i < |parts| && '\\' in parts[i]
    decreases |parts|
  {
    if |parts| > 1 {
      BackslashLine(parts[1..]);
      if i :| 0 <= i < |parts| && '\\' in parts[i] {
        if i > 0 { assert '\\' in parts[1..][i - 1]; }
      }
      if i :| 0 <= i < |parts| - 1 && '\\' in parts[1..][i] {
        assert '\\' in parts[i + 1];
      }
    }
  }

  /** Words with neither a quote nor a backslash in them, or on Windows plain to the last character. */
  predicate Writable(windows: bool, words: seq<string>) {
    forall i :: 0 <= i < |words| ==> if windows then CmdPlain(words[i]) else '\'' !in words[i] && '\\' !in words[i]
  }

  /** The line is refused exactly when a word cannot be written so; otherwise it holds no backslash and a
      POSIX shell reads its words back. */
  lemma UnescapedRoundTrip(windows: bool, exe: string, args: seq<string>)
    ensures var words, r := [Slashed(windows, exe)] + args, UnescapedLine(windows, exe, args);
            && (r.Some? <==> Writable(windows, words))
            && (r.Some? ==> '\\' !in r.value && Split(r.value, None) == Some(words))
  {
    hide Split, PosixWord, Joined;
    var words := [Slashed(windows, exe)] + args;
    var parts := PosixParts(words);
    LineIsRead(words);
    BackslashLine(parts);
    forall i | 0 <= i < |words| ensures '\\' in parts[i] <==> '\'' in words[i] || '\\' in words[i] {
      BackslashWord(words[i]);
    }
    if windows && Writable(windows, words) {
      forall i | 0 <= i < |words| ensures parts[i] == words[i] && '\\' !in words[i] {
        CmdWordIsPlain(words[i]);
      }
      assert parts == words;
    }
  }

  lemma CmdWordIsPlain(s: string)
    requires CmdPlain(s)
    ensures PosixWord(s) == s && '\\' !in s
  {
    assert forall i :: 0 <= i < |s| ==> CmdChar(s[i]) && PosixChar(s[i]);
  }

  // ---------------------------------------------------------------- what is left unquoted

  lemma {:induction false} ReplacedIsNoShorter(s: string, c: char, other: string)
    requires other != ""
    ensures |Replaced(s, c, other)| >= |s|
  {
    if s != "" {
      ReplacedIsNoShorter(s[1..], c, other);
    }
  }

  /** Any of a set of characters, or an ASCII letter or digit. */
  predicate PlainAmong(s: string, marks: string) {
    s != "" && forall i :: 0 <= i < |s| ==>
      s[i] in marks || 'a' <= s[i] <= 'z' || 'A' <= s[i] <= 'Z' || '0' <= s[i] <= '9'
  }

  /** A word is written as it is exactly when it is not empty and has only plain characters; any other is quoted. */
  lemma UnquotedExactly(s: string)
    ensures PosixWord(s) == s <==> PlainAmong(s, "/._:=@,+%-")
    ensures PsArg(s) == s <==> PlainAmong(s, "\\/:._=-")
    ensures PsExe(s) == s <==> PlainAmong(s, "\\:._-")
  {
    hide Replaced;
    ReplacedIsNoShorter(s, '\'', "'\\''");
    ReplacedIsNoShorter(s, '\'', "''");
  }

  /** On Windows the POSIX line names the executable with slashes for backslashes; elsewhere as it is. */
  lemma {:induction false} SlashedExactly(windows: bool, exe: string)
    ensures |Slashed(windows, exe)| == |exe|
    ensures forall i :: 0 <= i < |exe| ==>
              Slashed(windows, exe)[i] == if windows && exe[i] == '\\' then '/' else exe[i]
  {
    if windows && exe != "" {
      SlashedExactly(windows, exe[1..]);
      var rest := Replaced(exe[1..], '\\', "/");
      forall i | 0 < i < |exe| ensures Slashed(windows, exe)[i] == if exe[i] == '\\' then '/' else exe[i] {
        assert Slashed(windows, exe)[i] == rest[i - 1] && exe[1..][i - 1] == exe[i];
      }
    }
  }
}
