/**
 * Quoting for `sh -c`, read back by the token rules of sections 2.2.1, 2.2.2
 * and 2.3 of the POSIX.1-2017 Shell Command Language.
 */
module ShellWords {
  import opened Collections
  import opened Text

  // ---- The shell's side: a tokenizer ----

  datatype Mode = Plain | Escaped | Quoted

  /** `word` is the token being read, if any; None as a whole means the text is not a plain list of words. */
  datatype Lexer = Lexer(mode: Mode, word: Option<string>, words: seq<string>)

  /** Characters without any special meaning to the shell. */
  predicate Ordinary(ch: char) {
    'a' <= ch <= 'z' || 'A' <= ch <= 'Z' || '0' <= ch <= '9' || ch in "-_./:=@%+,"
  }

  function Append(word: Option<string>, ch: char): Option<string> {
    match word
    case None => Some([ch])
    case Some(w) => Some(w + [ch])
  }

  function EndWord(l: Lexer): Lexer {
    match l.word
    case None => l
    case Some(w) => l.(word := None, words := l.words + [w])
  }

  function Feed(l: Lexer, ch: char): Option<Lexer> {
    if ch == '\0' then None
    else match l.mode
      case Quoted =>
        if ch == '\'' then Some(l.(mode := Plain)) else Some(l.(word := Append(l.word, ch)))
      case Escaped =>
        if ch == '\n' then Some(l.(mode := Plain)) else Some(l.(mode := Plain, word := Append(l.word, ch)))
      case Plain =>
        if ch == ' ' || ch == '\t' then Some(EndWord(l))
        else if ch == '\'' then Some(l.(mode := Quoted, word := Some(if l.word.Some? then l.word.value else "")))
        else if ch == '\\' then Some(l.(mode := Escaped))
        else if Ordinary(ch) then Some(l.(word := Append(l.word, ch)))
        else None
  }

  function FeedAll(l: Lexer, s: string): Option<Lexer>
    decreases s
  {
    if s == "" then Some(l)
    else match Feed(l, s[0])
      case None => None
      case Some(next) => FeedAll(next, s[1..])
  }

  /** The words of a command line; None if it is more than a list of words. */
  function Tokenize(s: string): Option<seq<string>> {
    match FeedAll(Lexer(Plain, None, []), s)
    case None => None
    case Some(l) => if l.mode == Plain then Some(EndWord(l).words) else None
  }

  // ---- The runner's side ----

  function EscapeQuotes(value: string): string {
    if value == "" then ""
    else (if value[0] == '\'' then "'\\''" else [value[0]]) + EscapeQuotes(value[1..])
  }

  function ShellQuote(value: string): string {
    "'" + EscapeQuotes(value) + "'"
  }

  datatype DockerCommandOptions = DockerCommandOptions(
    image: string, cwd: string, command: string, containerName: string, user: Option<string>)

  function UserArgs(user: Option<string>): string {
    if user.Some? && user.value != "" then "--user " + user.value + " -e HOME=/tmp " else ""
  }

  function BuildDockerCommand(o: DockerCommandOptions): string {
    "docker run --rm --name " + ShellQuote(o.containerName) + " " + UserArgs(o.user)
    + "-v " + ShellQuote(o.cwd + ":/workspace") + " -w /workspace "
    + ShellQuote(o.image) + " sh -c " + ShellQuote(o.command)
  }

  /** The argument vector the command is meant to have. */
  function IntendedArguments(o: DockerCommandOptions): seq<string> {
    ["docker", "run", "--rm", "--name", o.containerName]
    + (if o.user.Some? && o.user.value != "" then ["--user", o.user.value, "-e", "HOME=/tmp"] else [])
    + ["-v", o.cwd + ":/workspace", "-w", "/workspace", o.image, "sh", "-c", o.command]
  }

  /** "uid:gid" of the runner process, or nothing where the platform has no such ids. */
  function HostUser(ids: Option<(nat, nat)>): Option<string> {
    match ids
    case None => None
    case Some((uid, gid)) => Some(Decimal(uid) + ":" + Decimal(gid))
  }

  // ---- Reading back ----

  predicate NulFree(s: string) {
    forall i :: 0 <= i < |s| ==> s[i] != '\0'
  }

  predicate AllOrdinary(s: string) {
    forall i :: 0 <= i < |s| ==> Ordinary(s[i])
  }

  predicate PlainWords(ws: seq<string>) {
    forall i :: 0 <= i < |ws| ==> AllOrdinary(ws[i]) && ws[i] != ""
  }

  lemma {:induction false} FeedConcat(l: Lexer, a: string, b: string)
    ensures FeedAll(l, a + b) == match FeedAll(l, a) case None => None case Some(m) => FeedAll(m, b)
    decreases a
  {
    if a == "" {
      assert a + b == b;
    } else {
      assert (a + b)[1..] == a[1..] + b;
      match Feed(l, a[0])
      case None =>
      case Some(next) => FeedConcat(next, a[1..], b);
    }
  }

  /** One escaped quote closes the quotation, adds a quote and reopens it. */
  lemma FeedEscapedQuote(u: string, ws: seq<string>)
    ensures FeedAll(Lexer(Quoted, Some(u), ws), "'\\''") == Some(Lexer(Quoted, Some(u + "'"), ws))
  {
    var s := "'\\''";
    assert s[1..] == "\\''" && s[1..][1..] == "''" && s[1..][1..][1..] == "'" && s[1..][1..][1..][1..] == "";
    assert FeedAll(Lexer(Quoted, Some(u + "'"), ws), "") == Some(Lexer(Quoted, Some(u + "'"), ws));
    assert FeedAll(Lexer(Plain, Some(u + "'"), ws), "'") == Some(Lexer(Quoted, Some(u + "'"), ws));
    assert FeedAll(Lexer(Escaped, Some(u), ws), "''") == Some(Lexer(Quoted, Some(u + "'"), ws));
    assert FeedAll(Lexer(Plain, Some(u), ws), "\\''") == Some(Lexer(Quoted, Some(u + "'"), ws));
  }

  lemma {:induction false} FeedEscaped(u: string, ws: seq<string>, v: string)
    requires NulFree(v)
    ensures FeedAll(Lexer(Quoted, Some(u), ws), EscapeQuotes(v)) == Some(Lexer(Quoted, Some(u + v), ws))
    decreases v
  {
    if v == "" {
      assert u + v == u;
    } else {
      var head := if v[0] == '\'' then "'\\''" else [v[0]];
      FeedConcat(Lexer(Quoted, Some(u), ws), head, EscapeQuotes(v[1..]));
      if v[0] == '\'' {
        FeedEscapedQuote(u, ws);
      } else {
        assert head[1..] == "";
      }
      FeedEscaped(u + [v[0]], ws, v[1..]);
      assert u + v == u + [v[0]] + v[1..];
    }
  }

  lemma FeedQuoted(ws: seq<string>, v: string)
    requires NulFree(v)
    ensures FeedAll(Lexer(Plain, None, ws), ShellQuote(v)) == Some(Lexer(Plain, Some(v), ws))
  {
    FeedConcat(Lexer(Plain, None, ws), "'", EscapeQuotes(v) + "'");
    assert "'" + (EscapeQuotes(v) + "'") == ShellQuote(v);
    assert FeedAll(Lexer(Plain, None, ws), "'") == Some(Lexer(Quoted, Some(""), ws)) by { assert "'"[1..] == ""; }
    FeedEscaped("", ws, v);
    assert "" + v == v;
    FeedConcat(Lexer(Quoted, Some(""), ws), EscapeQuotes(v), "'");
    assert FeedAll(Lexer(Quoted, Some(v), ws), "'") == Some(Lexer(Plain, Some(v), ws)) by { assert "'"[1..] == ""; }
  }

  /** Quoting is undone by the shell, whatever the value. */
  lemma QuoteRoundTrip(v: string)
    requires NulFree(v)
    ensures Tokenize(ShellQuote(v)) == Some([v])
  {
    FeedQuoted([], v);
    assert EndWord(Lexer(Plain, Some(v), [])).words == [v];
  }

  lemma {:induction false} FeedOrdinary(u: string, ws: seq<string>, v: string)
    requires AllOrdinary(v)
    ensures FeedAll(Lexer(Plain, Some(u), ws), v) == Some(Lexer(Plain, Some(u + v), ws))
    decreases v
  {
    if v == "" {
      assert u + v == u;
    } else {
      FeedOrdinary(u + [v[0]], ws, v[1..]);
      assert u + v == u + [v[0]] + v[1..];
    }
  }

  lemma FeedWord(ws: seq<string>, v: string)
    requires AllOrdinary(v) && v != ""
    ensures FeedAll(Lexer(Plain, None, ws), v + " ") == Some(Lexer(Plain, None, ws + [v]))
  {
    hide FeedAll, Feed;
    FeedConcat(Lexer(Plain, None, ws), v, " ");
    FeedFirst(ws, v);
    FeedOrdinary([v[0]], ws, v[1..]);
    assert [v[0]] + v[1..] == v;
    FeedSpace(ws, v);
  }

  lemma FeedFirst(ws: seq<string>, v: string)
    requires v != "" && Ordinary(v[0])
    ensures FeedAll(Lexer(Plain, None, ws), v) == FeedAll(Lexer(Plain, Some([v[0]]), ws), v[1..])
  {
  }

  lemma FeedSpace(ws: seq<string>, v: string)
    ensures FeedAll(Lexer(Plain, Some(v), ws), " ") == Some(Lexer(Plain, None, ws + [v]))
  {
    assert " "[1..] == "";
  }

  /** Words that need no quoting, each followed by a blank. */
  function Spaced(ws: seq<string>): string {
    if ws == [] then "" else ws[0] + " " + Spaced(ws[1..])
  }

  lemma {:induction false} FeedSpaced(done: seq<string>, ws: seq<string>)
    requires PlainWords(ws)
    ensures FeedAll(Lexer(Plain, None, done), Spaced(ws)) == Some(Lexer(Plain, None, done + ws))
    decreases ws
  {
    if ws == [] {
      assert done + ws == done;
    } else {
      FeedWord(done, ws[0]);
      FeedConcat(Lexer(Plain, None, done), ws[0] + " ", Spaced(ws[1..]));
      FeedSpaced(done + [ws[0]], ws[1..]);
      assert done + [ws[0]] + ws[1..] == done + ws;
    }
  }

  /** After plain words, a quoted value and a blank, the text that follows is read from a clean state. */
  lemma FeedSegment(done: seq<string>, ws: seq<string>, v: string, rest: string)
    requires PlainWords(ws)
    requires NulFree(v)
    ensures FeedAll(Lexer(Plain, None, done), Spaced(ws) + ShellQuote(v) + " " + rest)
         == FeedAll(Lexer(Plain, None, done + ws + [v]), rest)
  {
    var l := Lexer(Plain, None, done);
    FeedConcat(l, Spaced(ws) + ShellQuote(v) + " ", rest);
    FeedConcat(l, Spaced(ws) + ShellQuote(v), " ");
    FeedConcat(l, Spaced(ws), ShellQuote(v));
    FeedSpaced(done, ws);
    FeedQuoted(done + ws, v);
    FeedSpace(done + ws, v);
  }

  lemma SpacedLiterals()
    ensures "docker run --rm --name " == Spaced(["docker", "run", "--rm", "--name"])
    ensures "-v " == Spaced(["-v"])
    ensures "-w /workspace " == Spaced(["-w", "/workspace"])
    ensures "sh -c " == Spaced(["sh", "-c"])
  {
    SpacedStep("docker", ["run", "--rm", "--name"]);
    SpacedStep("run", ["--rm", "--name"]);
    SpacedStep("--rm", ["--name"]);
    SpacedStep("--name", []);
    SpacedStep("-v", []);
    SpacedStep("-w", ["/workspace"]);
    SpacedStep("/workspace", []);
    SpacedStep("sh", ["-c"]);
    SpacedStep("-c", []);
  }

  lemma SpacedStep(w: string, ws: seq<string>)
    ensures Spaced([w] + ws) == w + " " + Spaced(ws)
  {
    assert ([w] + ws)[1..] == ws;
  }

  lemma SpacedUser(user: string)
    ensures "--user " + user + " -e HOME=/tmp " == Spaced(["--user", user, "-e", "HOME=/tmp"])
  {
    SpacedStep("--user", [user, "-e", "HOME=/tmp"]);
    SpacedStep(user, ["-e", "HOME=/tmp"]);
    SpacedStep("-e", ["HOME=/tmp"]);
    SpacedStep("HOME=/tmp", []);
    assert " -e HOME=/tmp " == " " + ("-e" + " " + ("HOME=/tmp" + " " + ""));
    assert "--user " == "--user" + " ";
  }

  lemma {:induction false} SpacedConcat(a: seq<string>, b: seq<string>)
    ensures Spaced(a + b) == Spaced(a) + Spaced(b)
  {
    if a == [] {
      assert a + b == b;
    } else {
      SpacedStep(a[0], a[1..] + b);
      assert a + b == [a[0]] + (a[1..] + b);
      SpacedConcat(a[1..], b);
    }
  }

  lemma {:induction false} DecimalIsOrdinary(n: nat)
    ensures AllOrdinary(Decimal(n)) && Decimal(n) != ""
  {
    if n >= 10 {
      DecimalIsOrdinary(n / 10);
    }
  }

  lemma HostUserIsOrdinary(ids: Option<(nat, nat)>)
    ensures HostUser(ids).Some? ==> AllOrdinary(HostUser(ids).value) && HostUser(ids).value != ""
  {
    if ids.Some? {
      DecimalIsOrdinary(ids.value.0);
      DecimalIsOrdinary(ids.value.1);
    }
  }

  lemma {:induction false} DecimalHasNoColon(n: nat)
    ensures ':' !in Decimal(n)
  {
    if n >= 10 {
      DecimalHasNoColon(n / 10);
    }
  }

  /** Docker splits the argument at its colon: the user id comes first, the group id second. */
  lemma HostUserReadsBack(uid: nat, gid: nat)
    ensures HostUser(Some((uid, gid))).Some?
    ensures Split(HostUser(Some((uid, gid))).value, ':') == [Decimal(uid), Decimal(gid)]
  {
    var parts := [Decimal(uid), Decimal(gid)];
    DecimalHasNoColon(uid);
    DecimalHasNoColon(gid);
    hide Decimal, Split;
    assert parts[1..] == [Decimal(gid)];
    assert JoinWith(parts, ':') == HostUser(Some((uid, gid))).value;
    SplitJoin(parts, ':');
  }

  function DockerRun(): seq<string> { ["docker", "run", "--rm", "--name"] }

  function InWorkspace(): seq<string> { ["-w", "/workspace"] }

  function ShellRun(): seq<string> { ["sh", "-c"] }

  /** The words between the container name and the volume. */
  function UserWords(user: Option<string>): seq<string> {
    if user.Some? && user.value != "" then ["--user", user.value, "-e", "HOME=/tmp"] else []
  }

  lemma LiteralsAreOrdinary(user: Option<string>)
    requires user.Some? ==> AllOrdinary(user.value)
    ensures PlainWords(DockerRun()) && PlainWords(InWorkspace()) && PlainWords(ShellRun())
    ensures PlainWords(UserWords(user) + ["-v"])
  {
    assert AllOrdinary("docker") && AllOrdinary("run") && AllOrdinary("--rm") && AllOrdinary("--name");
    assert AllOrdinary("--user") && AllOrdinary("-e") && AllOrdinary("HOME=/tmp") && AllOrdinary("-v");
    assert AllOrdinary("-w") && AllOrdinary("/workspace") && AllOrdinary("sh") && AllOrdinary("-c");
    hide AllOrdinary;
    assert PlainWords(UserWords(user));
  }

  lemma Regroup(a: string, q1: string, u: string, v: string, q2: string, w: string, q3: string, s: string, q4: string)
    ensures a + q1 + " " + u + v + q2 + (" " + w) + q3 + (" " + s) + q4
         == a + q1 + " " + ((u + v) + q2 + " " + (w + q3 + " " + (s + q4)))
  {
  }

  /** The command as plain words and quoted values. */
  lemma CommandShape(o: DockerCommandOptions)
    ensures BuildDockerCommand(o) ==
      Spaced(DockerRun()) + ShellQuote(o.containerName) + " " + (
      Spaced(UserWords(o.user) + ["-v"]) + ShellQuote(o.cwd + ":/workspace") + " " + (
      Spaced(InWorkspace()) + ShellQuote(o.image) + " " + (
      Spaced(ShellRun()) + ShellQuote(o.command))))
  {
    hide ShellQuote, Spaced;
    SpacedLiterals();
    SpacedConcat(UserWords(o.user), ["-v"]);
    assert UserArgs(o.user) == Spaced(UserWords(o.user)) by { UserArgsSpaced(o.user); }
    assert " -w /workspace " == " " + "-w /workspace ";
    assert " sh -c " == " " + "sh -c ";
    Regroup("docker run --rm --name ", ShellQuote(o.containerName), UserArgs(o.user), "-v ",
            ShellQuote(o.cwd + ":/workspace"), "-w /workspace ", ShellQuote(o.image), "sh -c ", ShellQuote(o.command));
  }

  lemma UserArgsSpaced(user: Option<string>)
    ensures UserArgs(user) == Spaced(UserWords(user))
  {
    if user.Some? && user.value != "" {
      SpacedUser(user.value);
    }
  }

  lemma ReadTail(done: seq<string>, image: string, command: string)
    requires NulFree(image) && NulFree(command)
    requires PlainWords(InWorkspace()) && PlainWords(ShellRun())
    ensures FeedAll(Lexer(Plain, None, done),
              Spaced(InWorkspace()) + ShellQuote(image) + " " + (Spaced(ShellRun()) + ShellQuote(command)))
         == Some(Lexer(Plain, Some(command), done + InWorkspace() + [image] + ShellRun()))
  {
    hide Feed, FeedAll, ShellQuote, Spaced, NulFree, PlainWords, InWorkspace, ShellRun;
    FeedSegment(done, InWorkspace(), image, Spaced(ShellRun()) + ShellQuote(command));
    var w := done + InWorkspace() + [image];
    FeedConcat(Lexer(Plain, None, w), Spaced(ShellRun()), ShellQuote(command));
    FeedSpaced(w, ShellRun());
    FeedQuoted(w + ShellRun(), command);
  }

  lemma ReadHead(head: seq<string>, name: string, flags: seq<string>, volume: string, rest: string)
    requires NulFree(name) && NulFree(volume) && PlainWords(head) && PlainWords(flags)
    ensures FeedAll(Lexer(Plain, None, []),
              Spaced(head) + ShellQuote(name) + " " + (Spaced(flags) + ShellQuote(volume) + " " + rest))
         == FeedAll(Lexer(Plain, None, head + [name] + flags + [volume]), rest)
  {
    hide Feed, FeedAll, ShellQuote, Spaced, NulFree, PlainWords;
    FeedSegment([], head, name, Spaced(flags) + ShellQuote(volume) + " " + rest);
    assert [] + head + [name] == head + [name];
    FeedSegment(head + [name], flags, volume, rest);
  }

  function WordsBeforeCommand(o: DockerCommandOptions): seq<string> {
    DockerRun() + [o.containerName] + (UserWords(o.user) + ["-v"]) + [o.cwd + ":/workspace"]
    + InWorkspace() + [o.image] + ShellRun()
  }

  lemma ReadCommand(o: DockerCommandOptions)
    requires NulFree(o.image) && NulFree(o.cwd) && NulFree(o.command) && NulFree(o.containerName)
    requires o.user.Some? ==> AllOrdinary(o.user.value)
    ensures FeedAll(Lexer(Plain, None, []), BuildDockerCommand(o))
         == Some(Lexer(Plain, Some(o.command), WordsBeforeCommand(o)))
  {
    var flags, volume := UserWords(o.user) + ["-v"], o.cwd + ":/workspace";
    LiteralsAreOrdinary(o.user);
    CommandShape(o);
    assert NulFree(volume);
    hide Feed, FeedAll, ShellQuote, Spaced, BuildDockerCommand, NulFree, PlainWords, AllOrdinary,
      UserWords, DockerRun, InWorkspace, ShellRun;
    ReadHead(DockerRun(), o.containerName, flags, volume,
      Spaced(InWorkspace()) + ShellQuote(o.image) + " " + (Spaced(ShellRun()) + ShellQuote(o.command)));
    ReadTail(DockerRun() + [o.containerName] + flags + [volume], o.image, o.command);
  }

  /** The shell passes docker exactly the intended arguments, for every cwd, command, image and container name. */
  lemma DockerCommandIsReadAsIntended(o: DockerCommandOptions, ids: Option<(nat, nat)>)
    requires NulFree(o.image) && NulFree(o.cwd) && NulFree(o.command) && NulFree(o.containerName)
    requires o.user == HostUser(ids)
    ensures Tokenize(BuildDockerCommand(o)) == Some(IntendedArguments(o))
  {
    hide FeedAll, BuildDockerCommand, WordsBeforeCommand, HostUser, IntendedArguments, AllOrdinary;
    HostUserIsOrdinary(ids);
    ReadCommand(o);
    IntendedShape(o);
  }

  lemma IntendedShape(o: DockerCommandOptions)
    ensures WordsBeforeCommand(o) + [o.command] == IntendedArguments(o)
  {
  }
}
