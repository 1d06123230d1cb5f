/** The HTTP front end (`WebServer`): one client per `check()`, whose request
    is read byte by byte until a blank line.  A request line of the form
    `GET /'command'` chooses the command, `GET /favicon.ico` is answered with
    a 404, and anything else runs the default command "help" through the
    command interpreter.  What the client sends before it disconnects is an
    input; what the server prints to the client is the output, one element
    per `println`. */
module Web {
  import opened ArduinoString
  import opened Nvs
  import opened Commander

  const HttpOk: string := "HTTP/1.1 200 OK"
  const Http404: string := "HTTP/1.1 404 "
  const HttpText: string := "Content-type:text/plain"

  /** The request-line prefixes the server recognises. */
  const GetQuote: string := "GET /'"
  const GetFavicon: string := "GET /favicon.ico"

  const Favicon: string := "favicon"
  const DefaultCommand: string := "help"

  /** `client.println(s)`. */
  function Println(s: string): string {
    s + "\r\n"
  }

  /** The usage text printed after the reply to "help". */
  const HelpExtra: seq<string> := [
    Println("\n\nappend command to address in single quotes-"),
    Println("http://192.168.4.1/'wifi list'"),
    Println("\n(or use telnet command interface via port 2300)")
  ]

  // ---------------------------------------------------------------------------
  // Reading the request
  // ---------------------------------------------------------------------------

  /** The command after one finished, non-empty request line, given the
      command so far: for `GET /'`, every `GET /'` is deleted, every `%20`
      becomes a space and the text before the first quote, trimmed, is the
      command (no quote: unchanged); `GET /favicon.ico` gives "favicon";
      any other line leaves the command alone. */
  function LineCommand(line: string, cmd: string): string {
    if StartsWith(line, GetQuote) then QuotedCommand(ReplaceAll(ReplaceAll(line, GetQuote, ""), "%20", " "), cmd)
    else if StartsWith(line, GetFavicon) then Favicon
    else cmd
  }

  /** The trimmed text before the first quote, or `cmd` without a quote. */
  function QuotedCommand(l: string, cmd: string): string {
    var i := IndexOf(l, "'");
    if i >= 0 then Trim(Substring(l, 0, i)) else cmd
  }

  /** The byte loop from a state (the current line and the command so far)
      over the bytes still to come: `Some(cmd)` when a blank line ends the
      request, `None` when the client is gone first.  CR is skipped, any
      other byte but LF extends the line, and LF finishes it. */
  function Parse(bs: string, line: string, cmd: string): Option<string>
    decreases |bs|
  {
    if bs == [] then None
    else if bs[0] == '\r' then Parse(bs[1..], line, cmd)
    else if bs[0] != '\n' then Parse(bs[1..], line + [bs[0]], cmd)
    else if line != [] then Parse(bs[1..], "", LineCommand(line, cmd))
    else Some(cmd)
  }

  // ---------------------------------------------------------------------------
  // Answering it
  // ---------------------------------------------------------------------------

  /** The answer to a finished request: a bare 404 for "favicon"; otherwise
      the 200 header, what the interpreter prints for the command, the usage
      text for "help" only, and a closing blank line. */
  function Respond(cmd: string, e: Env): Outcome {
    if cmd == Favicon then Outcome(e, [Println(Http404), Println("")])
    else Page(cmd, Process(cmd, e))
  }

  /** The 200 page around the interpreter's reply `r` to `cmd`. */
  function Page(cmd: string, r: Reply): Outcome {
    var extra := if cmd == DefaultCommand then HelpExtra else [];
    Outcome(r.env, [Println(HttpOk), Println(HttpText), Println("")] + r.out + extra + [Println("")])
  }

  /** One connection, from the bytes the client sent before it went away. */
  function Serve(bs: string, e: Env): Outcome {
    match Parse(bs, "", DefaultCommand)
    case None => Outcome(e, [])
    case Some(cmd) => Respond(cmd, e)
  }

  // ---------------------------------------------------------------------------
  // The server
  // ---------------------------------------------------------------------------

  class WebServer {
    const port: int
    const name: string
    var listening: bool
    /** Clients served and closed so far. */
    var closed: nat

    constructor (port: int, name: string)
      ensures this.port == port && this.name == name && !listening && closed == 0
    {
      this.port := port;
      this.name := name;
      listening := false;
      closed := 0;
    }

    method Start()
      modifies this
      ensures listening && closed == old(closed)
    {
      listening := true;
    }

    method Stop()
      modifies this
      ensures !listening && closed == old(closed)
    {
      listening := false;
    }

    /** `check()`: `incoming` is `None` when no client is waiting, otherwise
        the bytes that client sends before it disconnects.  One request is
        answered at most, then the client is closed. */
    method Check(incoming: Option<string>, settings: NvsSettings, board: Board) returns (out: seq<string>)
      modifies this, settings, board
      ensures listening == old(listening)
      ensures incoming.None? ==> out == [] && closed == old(closed) && EnvOf(settings, board) == old(EnvOf(settings, board))
      ensures incoming.Some? ==>
                Outcome(EnvOf(settings, board), out) == Serve(incoming.value, old(EnvOf(settings, board)))
                && closed == old(closed) + 1
    {
      out := [];
      if incoming.None? {
        return;
      }
      var cmd := ReadRequest(incoming.value);
      if cmd.Some? {
        out := Answer(cmd.value, settings, board);
      }
      closed := closed + 1;
    }
  }

  /** The `while (client.connected())` loop up to the blank line. */
  method ReadRequest(bs: string) returns (cmd: Option<string>)
    ensures cmd == Parse(bs, "", DefaultCommand)
  {
    var line := "";
    var current := DefaultCommand;
    var k := 0;
    while k < |bs|
      invariant k <= |bs|
      invariant Parse(bs, "", DefaultCommand) == Parse(bs[k..], line, current)
    {
      var c := bs[k];
      assert bs[k..][1..] == bs[k + 1..];
      k := k + 1;
      if c == '\r' {
        continue;
      }
      if c != '\n' {
        line := line + [c];
        continue;
      }
      if |line| > 0 {
        current := CheckLine(line, current);
        line := "";
      } else {
        return Some(current);
      }
    }
    return None;
  }

  /** The work done on LF after a non-empty line. */
  method CheckLine(line: string, cmd: string) returns (next: string)
    ensures next == LineCommand(line, cmd)
  {
    next := cmd;
    if StartsWith(line, GetQuote) {
      var l := ReplaceAll(line, GetQuote, "");
      l := ReplaceAll(l, "%20", " ");
      var i := IndexOf(l, "'");
      if i >= 0 {
        next := Substring(l, 0, i);
        next := Trim(next);
      }
    } else if StartsWith(line, GetFavicon) {
      next := Favicon;
    }
  }

  /** The work done on the blank line. */
  method Answer(cmd: string, settings: NvsSettings, board: Board) returns (out: seq<string>)
    modifies settings, board
    ensures Outcome(EnvOf(settings, board), out) == Respond(cmd, old(EnvOf(settings, board)))
  {
    if cmd == Favicon {
      out := [Println(Http404), Println("")];
      return;
    }
    out := [Println(HttpOk), Println(HttpText), Println("")];
    var printed, _ := RunProcess(cmd, settings, board);
    out := out + printed;
    if cmd == DefaultCommand {
      out := out + HelpExtra;
    }
    out := out + [Println("")];
  }

  // ---------------------------------------------------------------------------
  // Requests as lines
  // ---------------------------------------------------------------------------

  /** A request line as it arrives: non-empty, without CR or LF. */
  predicate IsLine(l: string) {
    l != [] && '\r' !in l && '\n' !in l
  }

  /** Lines each ended by LF. */
  function Lines(ls: seq<string>): string {
    if ls == [] then "" else ls[0] + "\n" + Lines(ls[1..])
  }

  /** The command after the lines `ls`, starting from `cmd`. */
  function LastCommand(ls: seq<string>, cmd: string): string {
    if ls == [] then cmd else LastCommand(ls[1..], LineCommand(ls[0], cmd))
  }

  /** The bytes with every CR removed. */
  function NoCr(bs: string): (r: string)
    ensures '\r' !in r
  {
    if bs == [] then [] else (if bs[0] == '\r' then [] else [bs[0]]) + NoCr(bs[1..])
  }

  // ---------------------------------------------------------------------------
  // Properties of the byte loop
  // ---------------------------------------------------------------------------

  /** CR bytes make no difference anywhere in a request. */
  lemma {:induction false} CrInvisible(bs: string, line: string, cmd: string)
    ensures Parse(bs, line, cmd) == Parse(NoCr(bs), line, cmd)
    decreases |bs|
  {
    if bs != [] {
      var c := bs[0];
      var r := NoCr(bs[1..]);
      if c != '\r' {
        assert NoCr(bs) == [c] + r;
        assert ([c] + r)[1..] == r;
        if c != '\n' {
          CrInvisible(bs[1..], line + [c], cmd);
        } else if line != [] {
          CrInvisible(bs[1..], "", LineCommand(line, cmd));
        }
      } else {
        assert NoCr(bs) == [] + r == r;
        CrInvisible(bs[1..], line, cmd);
      }
    }
  }

  /** Nothing after the blank line is read. */
  lemma {:induction false} AfterEndIgnored(bs: string, more: string, line: string, cmd: string)
    requires Parse(bs, line, cmd).Some?
    ensures Parse(bs + more, line, cmd) == Parse(bs, line, cmd)
    decreases |bs|
  {
    var c := bs[0];
    assert (bs + more)[0] == c && (bs + more)[1..] == bs[1..] + more;
    if c == '\r' {
      AfterEndIgnored(bs[1..], more, line, cmd);
    } else if c != '\n' {
      AfterEndIgnored(bs[1..], more, line + [c], cmd);
    } else if line != [] {
      AfterEndIgnored(bs[1..], more, "", LineCommand(line, cmd));
    }
  }

  /** Bytes without LF never end the request: the client that leaves before
      the blank line gets nothing. */
  lemma {:induction false} NoEndWithoutLf(bs: string, line: string, cmd: string)
    requires '\n' !in bs
    ensures Parse(bs, line, cmd) == None
    decreases |bs|
  {
    if bs != [] {
      if bs[0] == '\r' {
        NoEndWithoutLf(bs[1..], line, cmd);
      } else {
        NoEndWithoutLf(bs[1..], line + [bs[0]], cmd);
      }
    }
  }

  /** The bytes of one line and its LF finish that line. */
  lemma {:induction false} LineRead(l: string, rest: string, line: string, cmd: string)
    requires '\r' !in l && '\n' !in l && line + l != []
    ensures Parse(l + "\n" + rest, line, cmd) == Parse(rest, "", LineCommand(line + l, cmd))
    decreases |l|
  {
    if l == [] {
      assert l + "\n" + rest == ['\n'] + rest;
      assert (['\n'] + rest)[1..] == rest;
      assert line + l == line;
    } else {
      assert (l + "\n" + rest)[0] == l[0];
      assert (l + "\n" + rest)[1..] == l[1..] + "\n" + rest;
      assert line + [l[0]] + l[1..] == line + l;
      LineRead(l[1..], rest, line + [l[0]], cmd);
    }
  }

  /** Whole lines change only the command, one after the other. */
  lemma {:induction false} LinesRead(ls: seq<string>, rest: string, cmd: string)
    requires forall i :: 0 <= i < |ls| ==> IsLine(ls[i])
    ensures Parse(Lines(ls) + rest, "", cmd) == Parse(rest, "", LastCommand(ls, cmd))
    decreases |ls|
  {
    if ls != [] {
      var tail := Lines(ls[1..]) + rest;
      assert Lines(ls) + rest == ls[0] + "\n" + tail;
      assert "" + ls[0] == ls[0];
      LineRead(ls[0], tail, "", cmd);
      LinesRead(ls[1..], rest, LineCommand(ls[0], cmd));
      assert Parse(Lines(ls) + rest, "", cmd) == Parse(tail, "", LineCommand(ls[0], cmd));
    } else {
      assert Lines(ls) + rest == rest;
    }
  }

  /** A request is its lines and a blank line: its command is the one its
      lines leave, starting from "help", whatever follows. */
  lemma RequestCommand(ls: seq<string>, more: string)
    requires forall i :: 0 <= i < |ls| ==> IsLine(ls[i])
    ensures Parse(Lines(ls) + ("\n" + more), "", DefaultCommand) == Some(LastCommand(ls, DefaultCommand))
  {
    LinesRead(ls, "\n" + more, DefaultCommand);
    assert ("\n" + more)[1..] == more;
  }

  /** A client that leaves in the middle of a line, or before the blank line,
      gets no answer, and nothing changes. */
  lemma Unfinished(ls: seq<string>, partial: string, e: Env)
    requires forall i :: 0 <= i < |ls| ==> IsLine(ls[i])
    requires '\n' !in partial
    ensures Serve(Lines(ls) + partial, e) == Outcome(e, [])
  {
    LinesRead(ls, partial, DefaultCommand);
    NoEndWithoutLf(partial, "", LastCommand(ls, DefaultCommand));
  }

  // ---------------------------------------------------------------------------
  // Properties of the command choice
  // ---------------------------------------------------------------------------

  /** Lines are applied in order: a later line acts on what the earlier ones
      left. */
  lemma {:induction false} LastCommandAppend(ls: seq<string>, l: string, cmd: string)
    ensures LastCommand(ls + [l], cmd) == LineCommand(l, LastCommand(ls, cmd))
    decreases |ls|
  {
    if ls == [] {
      assert [] + [l] == [l];
    } else {
      assert (ls + [l])[1..] == ls[1..] + [l];
      LastCommandAppend(ls[1..], l, LineCommand(ls[0], cmd));
    }
  }

  /** A line that does not start with "GET /" keeps the command. */
  lemma OtherLineKeeps(line: string, cmd: string)
    requires !StartsWith(line, "GET /")
    ensures LineCommand(line, cmd) == cmd
  {
    assert GetQuote[..5] == "GET /" && GetFavicon[..5] == "GET /";
  }

  /** Header lines (none starting with "GET /") keep the command. */
  lemma {:induction false} HeadersKeep(hs: seq<string>, cmd: string)
    requires forall i :: 0 <= i < |hs| ==> !StartsWith(hs[i], "GET /")
    ensures LastCommand(hs, cmd) == cmd
    decreases |hs|
  {
    if hs != [] {
      OtherLineKeeps(hs[0], cmd);
      HeadersKeep(hs[1..], cmd);
    }
  }

  /** `GET /favicon.ico...` sets the command to "favicon". */
  lemma FaviconLine(rest: string, cmd: string)
    ensures LineCommand(GetFavicon + rest, cmd) == Favicon
  {
    var line := GetFavicon + rest;
    assert line[..|GetFavicon|] == GetFavicon;
    assert line[5] == 'f';
  }

  /** A character that does not start the pattern is copied by `replace`. */
  lemma ReplaceKeepsHead(c: char, s: string, find: string, rep: string)
    requires |find| > 0 && c != find[0]
    ensures ReplaceAll([c] + s, find, rep) == [c] + ReplaceAll(s, find, rep)
  {
    assert ([c] + s)[1..] == s;
  }

  /** Text before a quote, when it holds none itself, is the command. */
  lemma CutAtQuote(y: string, b: string, cmd: string)
    requires '\'' !in y
    ensures QuotedCommand(y + ("'" + b), cmd) == Trim(y)
  {
    var s := y + ("'" + b);
    assert y[0..] == y;
    FindAfterPrefix(y, "'" + b, "'", 0);
    assert ("'" + b)[0..1] == "'";
    assert FindFrom("'" + b, "'", 0) == 0;
    assert IndexOf(s, "'") == |y|;
    assert s[0..|y|] == y;
    assert Substring(s, 0, |y|) == y;
  }

  /** Without a quote the command is kept. */
  lemma NoQuote(y: string, cmd: string)
    requires '\'' !in y
    ensures QuotedCommand(y, cmd) == cmd
  {
    if |y| > 0 {
      IndexOfFirst(y, "'");
      forall j: nat
        ensures !OccursAt(y, "'", j)
      {
        if j + 1 <= |y| {
          assert y[j..j + 1][0] == y[j] && y[j] != '\'';
        }
      }
    }
  }

  /** Decoding `%20` in `X'R` leaves a quote-free `X` before the quote. */
  lemma DecodeBeforeQuote(x: string, rest: string)
    requires '\'' !in x
    ensures var y := ReplaceAll(x, "%20", " ");
      && '\'' !in y
      && ReplaceAll(x + ("'" + rest), "%20", " ") == y + ("'" + ReplaceAll(rest, "%20", " "))
  {
    ReplaceSplit(x, "'" + rest, "%20", " ");
    ReplaceKeepsHead('\'', rest, "%20", " ");
    assert "'" + rest == ['\''] + rest;
    var y := ReplaceAll(x, "%20", " ");
    if '\'' in y {
      ReplaceChars(x, "%20", " ", '\'');
    }
  }

  /** A `GET /'` line: the command comes from what is left once `GET /'` is
      removed and `%20` decoded. */
  lemma LineQuoted(line: string, tail: string, cmd: string)
    requires StartsWith(line, GetQuote) && ReplaceAll(line, GetQuote, "") == tail
    ensures LineCommand(line, cmd) == QuotedCommand(ReplaceAll(tail, "%20", " "), cmd)
  {
  }

  /** With no 'G' after it, the leading `GET /'` is the only one. */
  lemma QuotedHead(x: string, rest: string, cmd: string)
    requires 'G' !in x && 'G' !in rest && '\'' !in x
    ensures LineCommand(GetQuote + x + "'" + rest, cmd) == QuotedCommand(ReplaceAll(x + ("'" + rest), "%20", " "), cmd)
  {
    var tail := x + ("'" + rest);
    var line := GetQuote + x + "'" + rest;
    assert line == GetQuote + tail;
    assert StartsWith(line, GetQuote) && ReplaceAll(line, GetQuote, "") == tail by {
      assert 'G' !in tail;
      StripAbsent(GetQuote, tail, 0);
    }
    LineQuoted(line, tail, cmd);
  }

  /** After decoding, the text before the quote is X decoded. */
  lemma QuotedTail(x: string, rest: string, cmd: string)
    requires '\'' !in x
    ensures QuotedCommand(ReplaceAll(x + ("'" + rest), "%20", " "), cmd) == Trim(ReplaceAll(x, "%20", " "))
  {
    DecodeBeforeQuote(x, rest);
    CutAtQuote(ReplaceAll(x, "%20", " "), ReplaceAll(rest, "%20", " "), cmd);
  }

  /** `GET /'X'R` (X without a quote; neither X nor R holding a 'G', so that
      the only `GET /'` is the leading one) gives the command X, with every
      `%20` turned into a space, trimmed. */
  lemma QuotedLine(x: string, rest: string, cmd: string)
    requires '\'' !in x && 'G' !in x && 'G' !in rest
    ensures LineCommand(GetQuote + x + "'" + rest, cmd) == Trim(ReplaceAll(x, "%20", " "))
  {
    QuotedHead(x, rest, cmd);
    QuotedTail(x, rest, cmd);
  }

  /** `GET /'X` with no closing quote (and no 'G' in X) keeps the command. */
  lemma UnquotedLine(x: string, cmd: string)
    requires '\'' !in x && 'G' !in x
    ensures LineCommand(GetQuote + x, cmd) == cmd
  {
    StripAbsent(GetQuote, x, 0);
    var y := ReplaceAll(x, "%20", " ");
    if '\'' in y {
      ReplaceChars(x, "%20", " ", '\'');
    }
    NoQuote(y, cmd);
  }

  /** A quoted line is overridden by no earlier line and kept by every
      later header: it alone decides the command. */
  lemma QuotedLineWins(before: seq<string>, x: string, rest: string, hs: seq<string>, cmd: string)
    requires '\'' !in x && 'G' !in x && 'G' !in rest
    requires forall i :: 0 <= i < |hs| ==> !StartsWith(hs[i], "GET /")
    ensures LastCommand(before + [GetQuote + x + "'" + rest] + hs, cmd) == Trim(ReplaceAll(x, "%20", " "))
  {
    var l := GetQuote + x + "'" + rest;
    var c := LastCommand(before, cmd);
    LastCommandAppend(before, l, cmd);
    QuotedLine(x, rest, c);
    LastCommandSplit(before + [l], hs, cmd);
    HeadersKeep(hs, LastCommand(before + [l], cmd));
  }

  lemma {:induction false} LastCommandSplit(ls: seq<string>, hs: seq<string>, cmd: string)
    ensures LastCommand(ls + hs, cmd) == LastCommand(hs, LastCommand(ls, cmd))
    decreases |ls|
  {
    if ls == [] {
      assert ls + hs == hs;
    } else {
      assert (ls + hs)[1..] == ls[1..] + hs;
      LastCommandSplit(ls[1..], hs, LineCommand(ls[0], cmd));
    }
  }

  // ---------------------------------------------------------------------------
  // Properties of the answer
  // ---------------------------------------------------------------------------

  /** The page shows the 200 header, then exactly what the interpreter
      printed, then the usage text when the command is "help" and only then,
      then a blank line; the state is the interpreter's. */
  lemma PageLayout(cmd: string, r: Reply)
    ensures var o := Page(cmd, r);
      && o.env == r.env
      && |o.out| >= |r.out| + 4
      && o.out[..3] == [Println(HttpOk), Println(HttpText), Println("")]
      && o.out[3..3 + |r.out|] == r.out
      && o.out[|o.out| - 1] == Println("")
      && (|o.out| == |r.out| + 7 <==> cmd == DefaultCommand)
  {
    var head := [Println(HttpOk), Println(HttpText), Println("")];
    var extra := if cmd == DefaultCommand then HelpExtra else [];
    var out := head + r.out + extra + [Println("")];
    assert out[..3] == head;
    assert out[3..3 + |r.out|] == r.out;
  }

  /** Any command but "favicon" runs exactly as the telnet interface runs
      it: the same new state, and the same printed text inside the page. */
  lemma RespondRunsCommand(cmd: string, e: Env)
    requires cmd != Favicon
    ensures Respond(cmd, e) == Page(cmd, Process(cmd, e))
    ensures Respond(cmd, e).env == Process(cmd, e).env
    ensures var o := Respond(cmd, e).out; var r := Process(cmd, e).out;
      |o| >= |r| + 4 && o[3..3 + |r|] == r && o[|o| - 1] == Println("")
  {
    PageLayout(cmd, Process(cmd, e));
  }

  /** A request whose command-setting line is `GET /favicon.ico` has the
      command "favicon"... */
  lemma FaviconCommand(before: seq<string>, rest: string, hs: seq<string>, more: string)
    requires forall i :: 0 <= i < |before| ==> IsLine(before[i])
    requires IsLine(GetFavicon + rest)
    requires forall i :: 0 <= i < |hs| ==> IsLine(hs[i]) && !StartsWith(hs[i], "GET /")
    ensures Parse(Lines(before + [GetFavicon + rest] + hs) + ("\n" + more), "", DefaultCommand) == Some(Favicon)
  {
    var ls := before + [GetFavicon + rest] + hs;
    AllLines(before, GetFavicon + rest, hs);
    RequestCommand(ls, more);
    LastCommandSplit(before + [GetFavicon + rest], hs, DefaultCommand);
    LastCommandAppend(before, GetFavicon + rest, DefaultCommand);
    FaviconLine(rest, LastCommand(before, DefaultCommand));
    HeadersKeep(hs, Favicon);
  }

  /** ...so it gets the 404 status and a blank line only, and nothing
      changes. */
  lemma FaviconServed(before: seq<string>, rest: string, hs: seq<string>, more: string, e: Env)
    requires forall i :: 0 <= i < |before| ==> IsLine(before[i])
    requires IsLine(GetFavicon + rest)
    requires forall i :: 0 <= i < |hs| ==> IsLine(hs[i]) && !StartsWith(hs[i], "GET /")
    ensures Serve(Lines(before + [GetFavicon + rest] + hs) + ("\n" + more), e)
      == Outcome(e, [Println(Http404), Println("")])
  {
    FaviconCommand(before, rest, hs, more);
  }

  /** A request without any `GET /` line runs "help". */
  lemma DefaultIsHelp(hs: seq<string>, more: string)
    requires forall i :: 0 <= i < |hs| ==> IsLine(hs[i]) && !StartsWith(hs[i], "GET /")
    ensures Parse(Lines(hs) + ("\n" + more), "", DefaultCommand) == Some(DefaultCommand)
  {
    RequestCommand(hs, more);
    HeadersKeep(hs, DefaultCommand);
  }

  /** A request without any `GET /` line is answered with the interpreter's
      reply to "help" inside the 200 page, followed by the usage text. */
  lemma DefaultServed(hs: seq<string>, more: string, e: Env)
    requires forall i :: 0 <= i < |hs| ==> IsLine(hs[i]) && !StartsWith(hs[i], "GET /")
    ensures var o := Serve(Lines(hs) + ("\n" + more), e);
      var r := Process(DefaultCommand, e);
      && o.env == r.env
      && |o.out| == |r.out| + 7
      && o.out[..3] == [Println(HttpOk), Println(HttpText), Println("")]
      && o.out[3..3 + |r.out|] == r.out
      && o.out[3 + |r.out|..] == HelpExtra + [Println("")]
  {
    DefaultIsHelp(hs, more);
    var r := Process(DefaultCommand, e);
    var o := Page(DefaultCommand, r);
    PageLayout(DefaultCommand, r);
    assert o.out == [Println(HttpOk), Println(HttpText), Println("")] + r.out + (HelpExtra + [Println("")]);
  }

  /** Lines before, one line, headers after: all of them lines. */
  lemma AllLines(before: seq<string>, l: string, hs: seq<string>)
    requires forall i :: 0 <= i < |before| ==> IsLine(before[i])
    requires IsLine(l)
    requires forall i :: 0 <= i < |hs| ==> IsLine(hs[i])
    ensures var ls := before + [l] + hs; forall i :: 0 <= i < |ls| ==> IsLine(ls[i])
  {
    var ls := before + [l] + hs;
    forall i | 0 <= i < |ls|
      ensures IsLine(ls[i])
    {
      if i < |before| {
        assert ls[i] == before[i];
      } else if i == |before| {
        assert ls[i] == l;
      } else {
        assert ls[i] == hs[i - |before| - 1];
      }
    }
  }

  /** `GET /'X' HTTP/1.1` after any lines and before headers: the request's
      command is X with `%20` decoded, trimmed, whatever came before. */
  lemma QuotedRequest(before: seq<string>, x: string, rest: string, hs: seq<string>, more: string)
    requires forall i :: 0 <= i < |before| ==> IsLine(before[i])
    requires IsLine(GetQuote + x + "'" + rest)
    requires '\'' !in x && 'G' !in x && 'G' !in rest
    requires forall i :: 0 <= i < |hs| ==> IsLine(hs[i]) && !StartsWith(hs[i], "GET /")
    ensures Parse(Lines(before + [GetQuote + x + "'" + rest] + hs) + ("\n" + more), "", DefaultCommand)
      == Some(Trim(ReplaceAll(x, "%20", " ")))
  {
    AllLines(before, GetQuote + x + "'" + rest, hs);
    RequestCommand(before + [GetQuote + x + "'" + rest] + hs, more);
    QuotedLineWins(before, x, rest, hs, DefaultCommand);
  }

  /** A request carrying `GET /'X'` runs X, with `%20` decoded and trimmed,
      through the interpreter: the new state is the interpreter's and its
      reply sits right after the 200 header.  Should X read "favicon", the
      answer is the bare 404 instead. */
  lemma QuotedServed(before: seq<string>, x: string, rest: string, hs: seq<string>, more: string, e: Env)
    requires forall i :: 0 <= i < |before| ==> IsLine(before[i])
    requires IsLine(GetQuote + x + "'" + rest)
    requires '\'' !in x && 'G' !in x && 'G' !in rest
    requires forall i :: 0 <= i < |hs| ==> IsLine(hs[i]) && !StartsWith(hs[i], "GET /")
    ensures var c := Trim(ReplaceAll(x, "%20", " "));
      var o := Serve(Lines(before + [GetQuote + x + "'" + rest] + hs) + ("\n" + more), e);
      var r := Process(c, e);
      && (c == Favicon ==> o == Outcome(e, [Println(Http404), Println("")]))
      && (c != Favicon ==>
            && o.env == r.env
            && |o.out| >= |r.out| + 4
            && o.out[..3] == [Println(HttpOk), Println(HttpText), Println("")]
            && o.out[3..3 + |r.out|] == r.out)
  {
    var bs := Lines(before + [GetQuote + x + "'" + rest] + hs) + ("\n" + more);
    var c := Trim(ReplaceAll(x, "%20", " "));
    QuotedRequest(before, x, rest, hs, more);
    ServedAs(bs, c, e);
  }

  /** A request whose command is `c` is answered with the interpreter's reply
      to `c` after the 200 header, or with the 404 for "favicon". */
  lemma ServedAs(bs: string, c: string, e: Env)
    requires Parse(bs, "", DefaultCommand) == Some(c)
    ensures var o := Serve(bs, e);
      var r := Process(c, e);
      && (c == Favicon ==> o == Outcome(e, [Println(Http404), Println("")]))
      && (c != Favicon ==>
            && o.env == r.env
            && |o.out| >= |r.out| + 4
            && o.out[..3] == [Println(HttpOk), Println(HttpText), Println("")]
            && o.out[3..3 + |r.out|] == r.out)
  {
    PageLayout(c, Process(c, e));
  }
}
