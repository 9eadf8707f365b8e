/** The launcher's command line: each input line is stripped, then lower-cased,
    split into words, and the first word chooses what happens to the
    endpoint table. */
module Repl {
  import opened Dicts
  import opened Values
  import opened Endpoints

  /** The characters Python's `str.isspace` accepts below U+0100. */
  predicate IsSpace(c: char)
  {
    var n := c as int;
    n == 32 || 9 <= n <= 13 || 28 <= n <= 31 || n == 133 || n == 160
  }

  /** The line without its leading whitespace. */
  function TrimStart(s: string): (r: string)
    ensures |r| <= |s| && r == s[|s| - |r|..]
    ensures forall k :: 0 <= k < |s| - |r| ==> IsSpace(s[k])
    ensures r != [] ==> !IsSpace(r[0])
    decreases |s|
  {
    if s != [] && IsSpace(s[0]) then TrimStart(s[1..]) else s
  }

  /** The line without its trailing whitespace. */
  function TrimEnd(s: string): (r: string)
    ensures |r| <= |s| && r == s[..|r|]
    ensures forall k :: |r| <= k < |s| ==> IsSpace(s[k])
    ensures r != [] ==> !IsSpace(r[|r| - 1])
    decreases |s|
  {
    if s != [] && IsSpace(s[|s| - 1]) then TrimEnd(s[..|s| - 1]) else s
  }

  /** `str.strip()`: a contiguous piece of the line that neither starts
      nor ends with whitespace and has lost nothing but whitespace. */
  function Strip(s: string): (r: string)
    ensures r != [] ==> !IsSpace(r[0]) && !IsSpace(r[|r| - 1])
    ensures |s| - |TrimStart(s)| + |r| <= |s|
    ensures r == s[|s| - |TrimStart(s)|..|s| - |TrimStart(s)| + |r|]
  {
    TrimEnd(TrimStart(s))
  }

  /** Stripping loses nothing but whitespace. */
  lemma StripKeepsLetters(s: string)
    ensures Letters(Strip(s)) == Letters(s)
  {
    TrimStartKeepsLetters(s);
    TrimEndKeepsLetters(TrimStart(s));
  }

  lemma {:induction false} TrimStartKeepsLetters(s: string)
    ensures Letters(TrimStart(s)) == Letters(s)
    decreases |s|
  {
    if s != [] && IsSpace(s[0]) {
      TrimStartKeepsLetters(s[1..]);
    }
  }

  lemma {:induction false} TrimEndKeepsLetters(s: string)
    ensures Letters(TrimEnd(s)) == Letters(s)
    decreases |s|
  {
    if s != [] && IsSpace(s[|s| - 1]) {
      var init := s[..|s| - 1];
      TrimEndKeepsLetters(init);
      assert s == init + [s[|s| - 1]];
      LettersConcat(init, [s[|s| - 1]]);
      assert Letters([s[|s| - 1]]) == [];
    }
  }

  /** ASCII lower case; other characters are left as they are. */
  function LowerChar(c: char): char
  {
    if 'A' <= c <= 'Z' then (c as int - 'A' as int + 'a' as int) as char else c
  }

  function Lower(s: string): (r: string)
    ensures |r| == |s|
    ensures forall i :: 0 <= i < |s| ==> r[i] == LowerChar(s[i])
  {
    seq(|s|, i requires 0 <= i < |s| => LowerChar(s[i]))
  }

  lemma LowerKeepsSpaces(c: char)
    ensures IsSpace(LowerChar(c)) <==> IsSpace(c)
  {
  }

  /** The longest prefix of `s` holding no whitespace. */
  function WordLength(s: string): (n: nat)
    ensures n <= |s|
    ensures forall k :: 0 <= k < n ==> !IsSpace(s[k])
    ensures n < |s| ==> IsSpace(s[n])
    decreases |s|
  {
    if s == [] || IsSpace(s[0]) then 0 else 1 + WordLength(s[1..])
  }

  /** `str.split()`: the maximal runs of non-whitespace, in order. */
  function Words(s: string): (ws: seq<string>)
    ensures forall w :: w in ws ==> w != [] && forall k :: 0 <= k < |w| ==> !IsSpace(w[k])
    decreases |s|
  {
    if s == [] then []
    else if IsSpace(s[0]) then Words(s[1..])
    else
      var n := WordLength(s);
      [s[..n]] + Words(s[n..])
  }

  /** The non-whitespace characters of `s`, in order. */
  function Letters(s: string): string
    decreases |s|
  {
    if s == [] then [] else (if IsSpace(s[0]) then [] else [s[0]]) + Letters(s[1..])
  }

  function Concat(ws: seq<string>): string
    decreases |ws|
  {
    if ws == [] then [] else ws[0] + Concat(ws[1..])
  }

  lemma {:induction false} LettersOfWord(s: string)
    requires forall k :: 0 <= k < |s| ==> !IsSpace(s[k])
    ensures Letters(s) == s
    decreases |s|
  {
    if s != [] {
      LettersOfWord(s[1..]);
    }
  }

  lemma {:induction false} LettersOfSpaces(s: string)
    requires forall k :: 0 <= k < |s| ==> IsSpace(s[k])
    ensures Letters(s) == []
    decreases |s|
  {
    if s != [] {
      LettersOfSpaces(s[1..]);
    }
  }

  lemma {:induction false} LettersConcat(a: string, b: string)
    ensures Letters(a + b) == Letters(a) + Letters(b)
    decreases |a|
  {
    if a == [] {
      assert a + b == b;
    } else {
      assert (a + b)[0] == a[0];
      assert (a + b)[1..] == a[1..] + b;
      LettersConcat(a[1..], b);
    }
  }

  /** Splitting loses only whitespace: the words joined back together are
      exactly the line's non-whitespace characters. */
  lemma {:induction false} WordsKeepLetters(s: string)
    ensures Concat(Words(s)) == Letters(s)
    decreases |s|
  {
    if s != [] {
      if IsSpace(s[0]) {
        WordsKeepLetters(s[1..]);
      } else {
        var n := WordLength(s);
        WordsKeepLetters(s[n..]);
        LettersOfWord(s[..n]);
        assert s == s[..n] + s[n..];
        LettersConcat(s[..n], s[n..]);
        assert Words(s) == [s[..n]] + Words(s[n..]);
      }
    }
  }

  /** A word: non-empty, with no whitespace. */
  predicate IsWord(w: string)
  {
    w != [] && forall k :: 0 <= k < |w| ==> !IsSpace(w[k])
  }

  /** Words written out with one space between neighbours. */
  function Spaced(ws: seq<string>): string
    decreases |ws|
  {
    if ws == [] then []
    else if |ws| == 1 then ws[0]
    else ws[0] + " " + Spaced(ws[1..])
  }

  /** Splitting inverts spacing: each word is a maximal run, so words put
      side by side with spaces between them come back one by one, none
      merged and none cut. */
  lemma {:induction false} WordsOfSpaced(ws: seq<string>)
    requires forall i :: 0 <= i < |ws| ==> IsWord(ws[i])
    ensures Words(Spaced(ws)) == ws
    decreases |ws|
  {
    if ws != [] {
      var w := ws[0];
      if |ws| == 1 {
        WordThen(w, []);
        assert w + [] == w;
      } else {
        var tail := Spaced(ws[1..]);
        assert Spaced(ws) == w + (" " + tail);
        WordsOfSpaced(ws[1..]);
        WordThen(w, " " + tail);
        SpaceThen(tail);
      }
    }
  }

  /** A word followed by nothing or by whitespace is split off whole. */
  lemma WordThen(w: string, rest: string)
    requires IsWord(w)
    requires rest == [] || IsSpace(rest[0])
    ensures Words(w + rest) == [w] + Words(rest)
  {
    WordLengthOfWord(w, rest);
    var line := w + rest;
    assert line[..|w|] == w && line[|w|..] == rest;
  }

  /** A leading space separates and is dropped. */
  lemma SpaceThen(s: string)
    ensures Words(" " + s) == Words(s)
  {
    assert (" " + s)[1..] == s;
  }

  /** A word followed by nothing or by whitespace is read whole. */
  lemma {:induction false} WordLengthOfWord(w: string, rest: string)
    requires IsWord(w)
    requires rest == [] || IsSpace(rest[0])
    ensures WordLength(w + rest) == |w|
    decreases |w|
  {
    assert (w + rest)[0] == w[0];
    if |w| > 1 {
      assert (w + rest)[1..] == w[1..] + rest;
      WordLengthOfWord(w[1..], rest);
    } else {
      assert (w + rest)[1..] == rest;
    }
  }

  /** A line that is not blank has at least one word. */
  lemma {:induction false} WordsOfNonBlank(s: string)
    requires exists k :: 0 <= k < |s| && !IsSpace(s[k])
    ensures Words(s) != []
    decreases |s|
  {
    if IsSpace(s[0]) {
      var k :| 0 <= k < |s| && !IsSpace(s[k]);
      assert s[1..][k - 1] == s[k];
      WordsOfNonBlank(s[1..]);
    }
  }

  /** A parsed command line: the first word, and the second if there is one. */
  datatype Line = Line(command: string, arg: Option<string>)

  /** `None` for a blank line, which the loop skips. */
  function ParseLine(input: string): (r: Option<Line>)
    ensures r.None? <==> Strip(input) == []
    ensures r.Some? ==> var ws := Words(Lower(Strip(input)));
      && |ws| >= 1
      && r.value.command == ws[0]
      && r.value.arg == (if |ws| > 1 then Some(ws[1]) else None)
  {
    var line := Lower(Strip(input));
    if line == [] then None
    else
      WordsOfNonBlank(line);
      var ws := Words(line);
      Some(Line(ws[0], if |ws| > 1 then Some(ws[1]) else None))
  }

  /** What the loop does besides changing the table. */
  datatype Reaction = Quit | Report(rows: Option<seq<Row>>) | Help | Reloaded | Done | Unknown(command: string)

  /** The inputs a line's effects depend on: whether each spawn attempt
      succeeds, and what rediscovery finds on disk. */
  datatype World = World(spawn: Spawner, found: seq<Candidate>)

  /** No argument and `all` both mean every endpoint. */
  predicate MeansAll(arg: Option<string>)
  {
    arg.None? || arg == Some("all")
  }

  /** Dispatch of one parsed line. `kiosk` opens browser windows and leaves
      the table alone. The command words are distinct, so the order of the
      cases does not matter. */
  function Dispatch(m: Manager, w: World, line: Line): (r: (Manager, Reaction))
  {
    var arg := line.arg;
    match line.command
    case "restart" => (RestartCommand(m, w.spawn, arg), Done)
    case "quit" => (StopAll(m), Quit)
    case "exit" => (StopAll(m), Quit)
    case "status" => (m, Listing(m))
    case "list" => (m, Listing(m))
    case "help" => (m, Help)
    case "reload" => (Reload(m, w.found), Reloaded)
    case "start" => (StartCommand(m, w.spawn, arg), Done)
    case "stop" => (StopCommand(m, arg), Done)
    case "kiosk" => (m, Done)
    case _ => (m, Unknown(line.command))
  }

  function Listing(m: Manager): Reaction
  {
    Report(StatusReport(m))
  }

  /** Rediscovery replaces the endpoints and keeps the tracked processes. */
  function Reload(m: Manager, found: seq<Candidate>): Manager
  {
    m.(endpoints := Discover(found))
  }

  /** Stop every tracked process, from a snapshot of the tracked names. */
  function StopAll(m: Manager): Manager
  {
    StopEach(m, Keys(m.processes))
  }

  function StartCommand(m: Manager, spawn: Spawner, arg: Option<string>): Manager
  {
    if MeansAll(arg) then StartEach(m, spawn, Keys(m.endpoints)) else StartEndpoint(m, spawn, arg.value)
  }

  function StopCommand(m: Manager, arg: Option<string>): Manager
  {
    if MeansAll(arg) then StopAll(m) else StopEndpoint(m, arg.value)
  }

  function RestartCommand(m: Manager, spawn: Spawner, arg: Option<string>): Manager
  {
    if MeansAll(arg) then RestartEach(m, spawn, Keys(m.endpoints)) else RestartEndpoint(m, spawn, arg.value)
  }

  /** One input line: a blank one is skipped. */
  function Step(m: Manager, w: World, input: string): (r: (Manager, Reaction))
  {
    match ParseLine(input)
    case None => (m, Done)
    case Some(line) => Dispatch(m, w, line)
  }

  /** `quit` and `exit`, in any case and with any surrounding whitespace,
      end the loop with no process tracked. */
  lemma QuitStopsEverything(m: Manager, w: World, input: string)
    requires ParseLine(input).Some? && (ParseLine(input).value.command == "quit" || ParseLine(input).value.command == "exit")
    ensures Step(m, w, input).1 == Quit
    ensures Step(m, w, input).0.processes == []
    ensures Step(m, w, input).0.endpoints == m.endpoints
  {
    DispatchQuit(m, w, ParseLine(input).value);
    StopAllEmpties(m);
  }

  lemma DispatchQuit(m: Manager, w: World, line: Line)
    requires line.command == "quit" || line.command == "exit"
    ensures Dispatch(m, w, line).0 == StopAll(m)
    ensures Dispatch(m, w, line).1 == Quit
  {
  }

  lemma DispatchRestart(m: Manager, w: World, line: Line)
    requires line.command == "restart"
    ensures Dispatch(m, w, line).0 == RestartCommand(m, w.spawn, line.arg)
  {
  }

  /** `restart` or `restart all` leaves no discovered endpoint exited. */
  lemma RestartAllCommand(m: Manager, w: World, line: Line)
    requires line.command == "restart" && MeansAll(line.arg)
    ensures forall k :: HasKey(m.endpoints, k) ==> Classify(Dispatch(m, w, line).0, k) != Exited
  {
    var r := RestartEach(m, w.spawn, Keys(m.endpoints));
    DispatchRestart(m, w, line);
    forall j | j in Keys(m.endpoints)
      ensures HasKey(m.endpoints, j)
    {
      HasKeyIff(m.endpoints, j);
    }
    RestartAllLeavesNoneExited(m, w.spawn, Keys(m.endpoints));
    forall k | HasKey(m.endpoints, k)
      ensures Classify(r, k) != Exited
    {
      HasKeyIff(m.endpoints, k);
    }
  }

  /** `restart` or `restart all` gives the i-th discovered endpoint a fresh
      process from attempt `spawns + i`, whether it was running, exited or
      stopped: it runs exactly when that attempt succeeds. */
  lemma RestartAllCommandRespawns(m: Manager, w: World, line: Line)
    requires line.command == "restart" && MeansAll(line.arg)
    requires UniqueKeys(m.endpoints)
    ensures forall i :: 0 <= i < |m.endpoints| ==>
      Classify(Dispatch(m, w, line).0, m.endpoints[i].0) == (if w.spawn(m.spawns + i) then Running else Stopped)
  {
    var names := Keys(m.endpoints);
    DispatchRestart(m, w, line);
    forall i | 0 <= i < |names|
      ensures HasKey(m.endpoints, names[i])
    {
      assert m.endpoints[i].0 == names[i];
    }
    RestartAllRespawnsEach(m, w.spawn, names);
  }

  /** Lines that only report or do nothing leave the table as it was. */
  lemma ReportsChangeNothing(m: Manager, w: World, line: Line)
    requires line.command in ["status", "list", "help", "kiosk"] || line.command !in Known
    ensures Dispatch(m, w, line).0 == m
  {
  }

  const Known: seq<string> := ["quit", "exit", "status", "list", "help", "reload", "start", "stop", "restart", "kiosk"]

  /** An unknown word is echoed back. */
  lemma UnknownCommand(m: Manager, w: World, line: Line)
    requires line.command !in Known
    ensures Dispatch(m, w, line).1 == Unknown(line.command)
  {
  }
}
