/** The serial command loop of src/proxy/proxy.c: each line typed on the serial console is
    cut into tokens, the tokens are matched case-insensitively against the command words,
    and the sensor is read in a fixed order. The line reader `uart_readline` is not part of
    this model: the lines are an input. */
module Proxy {
  import opened CTypes
  import opened TwiSpec
  import opened TwiHw
  import opened Bme280Math
  import opened Bme280

  // ---- str_to_lower

  /** `tolower` in the C locale: 'A'..'Z' become 'a'..'z', every other character is kept. */
  function Lower(c: char): (d: char)
    ensures 'A' <= c <= 'Z' ==> d as int == c as int + 32
    ensures !('A' <= c <= 'Z') ==> d == c
  {
    if 'A' <= c <= 'Z' then (c as int + 32) as char else c
  }

  /** A buffer after `str_to_lower`: the characters of its C string lower-cased, the
      terminator and whatever follows it untouched. */
  function Lowered(s: seq<char>): seq<char>
  {
    seq(|s|, i requires 0 <= i < |s| => if i < StrLen(s) then Lower(s[i]) else s[i])
  }

  /** `str_to_lower(s)`, in place. */
  method StrToLower(s: array<char>)
    modifies s
    ensures s[..] == Lowered(old(s[..]))
  {
    ghost var s0 := s[..];
    var i := 0;
    while i < s.Length && s[i] != '\0'
      invariant 0 <= i <= StrLen(s0)
      invariant forall j :: 0 <= j < s.Length ==> s[j] == (if j < i then Lower(s0[j]) else s0[j])
    {
      s[i] := Lower(s[i]);
      i := i + 1;
    }
    assert forall j :: 0 <= j < s.Length ==> s[..][j] == Lowered(s0)[j];
  }

  /** Lower-casing keeps the length of the buffer and of its C string, changes nothing but
      upper-case letters, leaves no upper-case letter in the C string, and done twice is
      done once. */
  lemma LoweredFacts(s: seq<char>)
    ensures |Lowered(s)| == |s| && StrLen(Lowered(s)) == StrLen(s)
    ensures forall i :: 0 <= i < |s| && !('A' <= s[i] <= 'Z') ==> Lowered(s)[i] == s[i]
    ensures forall i :: 0 <= i < StrLen(s) ==> !('A' <= Lowered(s)[i] <= 'Z')
    ensures Lowered(Lowered(s)) == Lowered(s)
  {
    var l := Lowered(s);
    StrLenIs(l, StrLen(s));
    assert forall i :: 0 <= i < |s| ==> Lowered(l)[i] == l[i];
  }

  // ---- strtok_r with the delimiters " \t,;:"

  predicate IsDelim(c: char)
  {
    c == ' ' || c == '\t' || c == ',' || c == ';' || c == ':'
  }

  /** The length of the run of non-delimiters that s starts with. */
  function RunLen(s: seq<char>): (n: nat)
    ensures n <= |s|
    ensures n < |s| ==> IsDelim(s[n])
    ensures forall i :: 0 <= i < n ==> !IsDelim(s[i])
  {
    if s == [] || IsDelim(s[0]) then 0 else 1 + RunLen(s[1..])
  }

  lemma RunLenIs(s: seq<char>, n: nat)
    requires n <= |s| && (n < |s| ==> IsDelim(s[n]))
    requires forall i :: 0 <= i < n ==> !IsDelim(s[i])
    ensures RunLen(s) == n
  {
  }

  /** The tokens successive `strtok_r` calls return on s, in order. */
  function Tokens(s: seq<char>): seq<seq<char>>
    decreases |s|
  {
    if s == [] then []
    else if IsDelim(s[0]) then Tokens(s[1..])
    else
      var n := RunLen(s);
      [s[..n]] + Tokens(s[n..])
  }

  function Flatten(ts: seq<seq<char>>): seq<char>
  {
    if ts == [] then [] else ts[0] + Flatten(ts[1..])
  }

  /** The characters of s that are not delimiters, in order. */
  function NonDelims(s: seq<char>): seq<char>
  {
    if s == [] then [] else (if IsDelim(s[0]) then [] else [s[0]]) + NonDelims(s[1..])
  }

  lemma {:induction false} NonDelimsAppend(a: seq<char>, b: seq<char>)
    ensures NonDelims(a + b) == NonDelims(a) + NonDelims(b)
  {
    if a == [] {
      assert a + b == b;
    } else {
      assert (a + b)[1..] == a[1..] + b;
      NonDelimsAppend(a[1..], b);
    }
  }

  /** A run of non-delimiters is kept whole. */
  lemma {:induction false} NonDelimsRun(s: seq<char>)
    requires forall i :: 0 <= i < |s| ==> !IsDelim(s[i])
    ensures NonDelims(s) == s
  {
    if s != [] {
      NonDelimsRun(s[1..]);
    }
  }

  /** Each token is non-empty and holds no delimiter, and together the tokens hold exactly
      the non-delimiter characters of s, in order. That they are maximal runs is stated by
      `TokensSplit` and `TokensRun`. */
  lemma {:induction false} TokensAreRuns(s: seq<char>)
    ensures forall t :: t in Tokens(s) ==> t != [] && forall i :: 0 <= i < |t| ==> !IsDelim(t[i])
    ensures Flatten(Tokens(s)) == NonDelims(s)
    decreases |s|
  {
    if s == [] {
    } else if IsDelim(s[0]) {
      TokensAreRuns(s[1..]);
    } else {
      var n := RunLen(s);
      TokensAreRuns(s[n..]);
      assert s == s[..n] + s[n..];
      NonDelimsAppend(s[..n], s[n..]);
      NonDelimsRun(s[..n]);
      assert Tokens(s)[1..] == Tokens(s[n..]);
    }
  }

  /** A delimiter always separates tokens: no token spans it, and the tokens on its two
      sides are those of each side alone. */
  lemma {:induction false} TokensSplit(a: seq<char>, d: char, b: seq<char>)
    requires IsDelim(d)
    ensures Tokens(a + [d] + b) == Tokens(a) + Tokens(b)
    decreases |a|
  {
    var s := a + [d] + b;
    if a == [] {
      assert s[1..] == b;
    } else if IsDelim(a[0]) {
      assert s[1..] == a[1..] + [d] + b;
      TokensSplit(a[1..], d, b);
    } else {
      var n := RunLen(a);
      assert forall i :: 0 <= i < n ==> s[i] == a[i];
      RunLenIs(s, n);
      assert s[..n] == a[..n];
      assert s[n..] == a[n..] + [d] + b;
      TokensSplit(a[n..], d, b);
      assert Tokens(a) == [a[..n]] + Tokens(a[n..]);
    }
  }

  /** A non-empty run without delimiters is a single token. */
  lemma TokensRun(t: seq<char>)
    requires t != [] && forall i :: 0 <= i < |t| ==> !IsDelim(t[i])
    ensures Tokens(t) == [t]
  {
    RunLenIs(t, |t|);
    assert t[..|t|] == t && t[|t|..] == [];
  }

  /** `tok = strtok_r(..., " \t,;:", &saveptr)` where saveptr points at position pos of the
      line: skips delimiters, and either finds no token or returns the next maximal run,
      the scan resuming after the delimiter that ends it. */
  method NextToken(line: seq<char>, pos: nat) returns (found: bool, tok: seq<char>, next: nat)
    requires pos <= |line|
    ensures pos <= next <= |line| && (found ==> pos < next)
    ensures found ==> Tokens(line[pos..]) == [tok] + Tokens(line[next..])
    ensures !found ==> Tokens(line[pos..]) == []
    ensures found ==> forall k :: 0 <= k < |tok| ==> tok[k] in line
  {
    var i := pos;
    while i < |line| && IsDelim(line[i])
      invariant pos <= i <= |line|
      invariant Tokens(line[pos..]) == Tokens(line[i..])
    {
      TokensSkip(line, i);
      i := i + 1;
    }
    if i == |line| {
      return false, [], i;
    }
    var j := i;
    while j < |line| && !IsDelim(line[j])
      invariant i <= j <= |line|
      invariant forall k :: i <= k < j ==> !IsDelim(line[k])
    {
      j := j + 1;
    }
    TokenAt(line, i, j);
    found, tok := true, line[i..j];
    assert forall k :: 0 <= k < |tok| ==> tok[k] == line[i + k];
    next := if j < |line| then j + 1 else j;
  }

  /** A delimiter at position i produces no token. */
  lemma TokensSkip(line: seq<char>, i: nat)
    requires i < |line| && IsDelim(line[i])
    ensures Tokens(line[i..]) == Tokens(line[i + 1..])
  {
    assert line[i..][1..] == line[i + 1..];
  }

  /** A maximal run line[i..j] is the first token of line[i..]; the delimiter that ends it,
      if any, is skipped. */
  lemma TokenAt(line: seq<char>, i: nat, j: nat)
    requires i < j <= |line|
    requires forall k :: i <= k < j ==> !IsDelim(line[k])
    requires j < |line| ==> IsDelim(line[j])
    ensures Tokens(line[i..]) == [line[i..j]] + Tokens(line[if j < |line| then j + 1 else j..])
  {
    var s := line[i..];
    RunLenIs(s, j - i);
    assert s[..j - i] == line[i..j] && s[j - i..] == line[j..];
    if j < |line| {
      assert line[j..][1..] == line[j + 1..];
    }
  }

  // ---- Matching a token against the command words

  /** A token as the parser compares it: `strncpy(word, tok, 31)` keeps at most 31
      characters, and `str_to_lower` lower-cases them. */
  function Word(tok: seq<char>): (w: seq<char>)
    ensures |w| == if |tok| <= 31 then |tok| else 31
  {
    var t := if |tok| <= 31 then tok else tok[..31];
    seq(|t|, i requires 0 <= i < |t| => Lower(t[i]))
  }

  /** The 32-byte `word` buffer after `strncpy(word, tok, 31); word[31] = '\0'`: strncpy
      pads a shorter token with NULs. */
  function WordBuf(tok: seq<char>): (b: seq<char>)
    ensures |b| == 32
  {
    var t := if |tok| <= 31 then tok else tok[..31];
    t + seq(32 - |t|, _ => '\0')
  }

  /** The C string of the lowered buffer is the compared word. */
  lemma WordOfBuf(tok: seq<char>)
    requires forall k :: 0 <= k < |tok| ==> tok[k] != '\0'
    ensures var l := Lowered(WordBuf(tok)); l[..StrLen(l)] == Word(tok)
  {
    var b := WordBuf(tok);
    var n := if |tok| <= 31 then |tok| else 31;
    StrLenIs(b, n);
    LoweredFacts(b);
  }

  /** `strncpy`, `str_to_lower` and reading back `word` as a C string. */
  method LowerWord(tok: seq<char>) returns (w: seq<char>)
    requires forall k :: 0 <= k < |tok| ==> tok[k] != '\0'
    ensures w == Word(tok)
  {
    var buf := WordBuf(tok);
    var word := new char[32](i requires 0 <= i < 32 => buf[i]);
    assert word[..] == buf;
    StrToLower(word);
    w := word[..StrLen(word[..])];
    WordOfBuf(tok);
  }

  /** Case does not matter: two tokens that agree but for the case of their letters are
      compared as the same word. A token longer than 31 characters is cut, so it never
      equals a command word. */
  lemma WordIgnoresCase(a: seq<char>, b: seq<char>)
    requires |a| == |b| && forall i :: 0 <= i < |a| ==> Lower(a[i]) == Lower(b[i])
    ensures Word(a) == Word(b)
    ensures |a| > 31 ==> Classify(Word(a)) == Ignore
  {
  }

  // ---- Interpreting one line

  /** `enum sensor_t`: what a command word asks for. */
  datatype Request = Temp | Press | Hum

  /** What one line leads to: back to the prompt at once (an empty line), leaving the loop,
      the "no valid command" message, or the readings asked for. */
  datatype Outcome = Reprompt | Quit | NoCommand | Reads(reqs: seq<Request>)

  /** What a compared word does in the token loop. */
  datatype Kind = Skip | Ask(req: Request) | Leave | Ignore

  /** "read" is skipped; temp/temperature, press/pressure and hum/humidity ask for their
      sensor; q/quit leaves; any other word is ignored. */
  function Classify(w: seq<char>): Kind
  {
    if w == "read" then Skip
    else if w == "temp" || w == "temperature" then Ask(Temp)
    else if w == "press" || w == "pressure" then Ask(Press)
    else if w == "hum" || w == "humidity" then Ask(Hum)
    else if w == "q" || w == "quit" then Leave
    else Ignore
  }

  /** The token loop from the token list `toks` on, with the requests `reqs` collected so
      far; scanning stops once 3 requests are collected. */
  function Scan(toks: seq<seq<char>>, reqs: seq<Request>): (out: Outcome)
    requires |reqs| <= 3
    ensures out != Reprompt
    ensures out.Reads? ==> 1 <= |out.reqs| <= 3 && reqs <= out.reqs
    ensures reqs != [] && out != Quit ==> out.Reads?
    decreases |toks|
  {
    if toks == [] || |reqs| == 3 then (if reqs == [] then NoCommand else Reads(reqs))
    else
      match Classify(Word(toks[0]))
      case Skip => Scan(toks[1..], reqs)
      case Ask(r) => Scan(toks[1..], reqs + [r])
      case Leave => Quit
      case Ignore => Scan(toks[1..], reqs)
  }

  /** The outcome of one line, as `proxy_run` decides it. */
  function Interpret(line: seq<char>): Outcome
  {
    if |line| == 0 then Reprompt
    else if |line| == 1 && (line[0] == 'q' || line[0] == 'Q') then Quit
    else Scan(Tokens(line), [])
  }

  /** The request a word names, if any. */
  function Named(w: seq<char>): seq<Request>
  {
    match Classify(w)
    case Ask(r) => [r]
    case _ => []
  }

  predicate IsQuit(w: seq<char>)
  {
    Classify(w) == Leave
  }

  /** The requests the tokens name, in order, duplicates kept. */
  function Requested(toks: seq<seq<char>>): seq<Request>
  {
    if toks == [] then [] else Named(Word(toks[0])) + Requested(toks[1..])
  }

  /** The position of the first quit word, or |toks| when there is none. */
  function QuitIndex(toks: seq<seq<char>>): (k: nat)
    ensures k <= |toks|
    ensures k < |toks| ==> IsQuit(Word(toks[k]))
    ensures forall i :: 0 <= i < k ==> !IsQuit(Word(toks[i]))
  {
    if toks == [] then 0 else if IsQuit(Word(toks[0])) then 0 else 1 + QuitIndex(toks[1..])
  }

  /** The outcome of a token list read as a whole, starting from the requests `acc`: the
      requests named before the first quit word, cut to 3; a quit word counts only when
      fewer than 3 requests precede it; with no request and no quit there is no valid
      command. */
  function Meaning(toks: seq<seq<char>>, acc: seq<Request>): Outcome
  {
    var k := QuitIndex(toks);
    var all := acc + Requested(toks[..k]);
    if |all| >= 3 then Reads(all[..3])
    else if k < |toks| then Quit
    else if all == [] then NoCommand
    else Reads(all)
  }

  /** One step of the token loop on a word that is not a quit word. */
  lemma ScanStep(toks: seq<seq<char>>, acc: seq<Request>)
    requires toks != [] && |acc| < 3 && !IsQuit(Word(toks[0]))
    ensures Scan(toks, acc) == Scan(toks[1..], acc + Named(Word(toks[0])))
  {
    assert acc + [] == acc;
  }

  /** The whole-list reading past a word that is not a quit word: that word's requests
      join the ones already named. */
  lemma MeaningCons(toks: seq<seq<char>>, acc: seq<Request>)
    requires toks != [] && !IsQuit(Word(toks[0]))
    ensures Meaning(toks, acc) == Meaning(toks[1..], acc + Named(Word(toks[0])))
  {
    var k := QuitIndex(toks);
    var k' := QuitIndex(toks[1..]);
    assert k == 1 + k';
    assert toks[..k][0] == toks[0] && toks[..k][1..] == toks[1..][..k'];
    assert acc + Requested(toks[..k]) == acc + Named(Word(toks[0])) + Requested(toks[1..][..k']);
  }

  /** The whole-list reading once three requests are named, and at a leading quit word. */
  lemma MeaningStops(toks: seq<seq<char>>, acc: seq<Request>)
    requires |acc| <= 3
    ensures |acc| == 3 ==> Meaning(toks, acc) == Reads(acc)
    ensures |acc| < 3 && toks != [] && IsQuit(Word(toks[0])) ==> Meaning(toks, acc) == Quit
    ensures toks == [] ==> Meaning(toks, acc) == (if acc == [] then NoCommand else Reads(acc))
  {
    var k := QuitIndex(toks);
    if toks == [] || IsQuit(Word(toks[0])) {
      assert k == 0 && toks[..k] == [];
      assert acc + Requested(toks[..k]) == acc;
    }
    if |acc| == 3 {
      assert (acc + Requested(toks[..k]))[..3] == acc;
    }
  }

  /** The token loop computes the whole-list reading of the tokens. */
  lemma {:induction false} ScanMeaning(toks: seq<seq<char>>, acc: seq<Request>)
    requires |acc| <= 3
    ensures Scan(toks, acc) == Meaning(toks, acc)
    decreases |toks|
  {
    MeaningStops(toks, acc);
    if toks != [] && |acc| < 3 && !IsQuit(Word(toks[0])) {
      ScanMeaning(toks[1..], acc + Named(Word(toks[0])));
      ScanStep(toks, acc);
      MeaningCons(toks, acc);
    }
  }

  /** What a line means, in terms of its tokens: an empty line re-prompts; otherwise the
      line asks for the first 3 requests its tokens name before any quit word, or quits
      when a quit word comes first, or names no valid command. */
  lemma InterpretMeaning(line: seq<char>)
    ensures |line| == 0 ==> Interpret(line) == Reprompt
    ensures |line| > 0 ==> Interpret(line) == Meaning(Tokens(line), [])
  {
    if |line| > 0 {
      ScanMeaning(Tokens(line), []);
      if |line| == 1 && (line[0] == 'q' || line[0] == 'Q') {
        QuickExitAgrees(line);
      }
    }
  }

  /** The quick exit on "q" or "Q" changes nothing: the token loop would quit on it too. */
  lemma QuickExitAgrees(line: seq<char>)
    requires |line| == 1 && (line[0] == 'q' || line[0] == 'Q')
    ensures Scan(Tokens(line), []) == Quit
  {
    RunLenIs(line, 1);
    assert line[..1] == line && line[1..] == [];
    assert Tokens(line) == [line];
    assert Word(line) == [Lower(line[0])] == "q";
    assert Classify(Word(line)) == Leave;
  }

  /** One turn of the token loop, on the token `tok` followed by the tokens `rest`. */
  lemma ScanCons(tok: seq<char>, rest: seq<seq<char>>, reqs: seq<Request>)
    requires |reqs| < 3
    ensures IsQuit(Word(tok)) ==> Scan([tok] + rest, reqs) == Quit
    ensures !IsQuit(Word(tok)) ==> Scan([tok] + rest, reqs) == Scan(rest, reqs + Named(Word(tok)))
  {
    assert ([tok] + rest)[0] == tok && ([tok] + rest)[1..] == rest;
    if !IsQuit(Word(tok)) {
      ScanStep([tok] + rest, reqs);
    }
  }

  /** The if-chain of `proxy_run` on one lowered word: a request word is appended to the
      first `count` slots of `requests`; a quit word is reported. */
  method Record(requests: array<Request>, count: nat, w: seq<char>) returns (n: nat, quit: bool)
    requires requests.Length == 3 && count < 3
    modifies requests
    ensures quit <==> IsQuit(w)
    ensures !quit ==> n == count + |Named(w)| && requests[..n] == old(requests[..count]) + Named(w)
  {
    n, quit := count, false;
    if w == "read" {
    } else if w == "temp" || w == "temperature" {
      requests[count] := Temp;
      n := count + 1;
    } else if w == "press" || w == "pressure" {
      requests[count] := Press;
      n := count + 1;
    } else if w == "hum" || w == "humidity" {
      requests[count] := Hum;
      n := count + 1;
    } else if w == "q" || w == "quit" {
      quit := true;
    }
    assert requests[..count] == old(requests[..count]);
  }

  /** `proxy_run`'s handling of one line up to the sensor reads: the empty line, the quick
      exit on "q"/"Q", then the token loop over the `requests[3]` array. */
  method ParseLine(line: seq<char>) returns (out: Outcome)
    requires forall i :: 0 <= i < |line| ==> line[i] != '\0'
    ensures out == Interpret(line)
  {
    if |line| == 0 {
      return Reprompt;
    }
    if |line| == 1 && (line[0] == 'q' || line[0] == 'Q') {
      return Quit;
    }
    var requests := new Request[3](_ => Temp);
    var reqCount := 0;
    var running := true;
    assert line[0..] == line;
    var found, tok, next := NextToken(line, 0);
    while found && reqCount < 3
      invariant 0 <= reqCount <= 3 && next <= |line| && running
      invariant found ==> forall k :: 0 <= k < |tok| ==> tok[k] in line
      invariant Scan(Tokens(line), []) ==
                Scan(if found then [tok] + Tokens(line[next..]) else [], requests[..reqCount])
      decreases |line| - next, found
    {
      ghost var reqs := requests[..reqCount];
      ScanCons(tok, Tokens(line[next..]), reqs);
      var w := LowerWord(tok);
      var quit;
      reqCount, quit := Record(requests, reqCount, w);
      if quit {
        running := false;
        break;
      }
      found, tok, next := NextToken(line, next);
    }
    if !running {
      return Quit;
    }
    if reqCount == 0 {
      return NoCommand;
    }
    return Reads(requests[..reqCount]);
  }

  // ---- The sensor reads of one round

  /** The reads after the temperature, in request order: a pressure request reads the raw
      pressure, a humidity request the raw humidity, and a temperature request reuses the
      cached temperature. */
  function FollowUps(reqs: seq<Request>): Plan
  {
    if reqs == [] then Done else Answering(reqs[0], FollowUps(reqs[1..]))
  }

  /** The read one request causes, before the calls `next`. */
  function Answering(req: Request, next: Plan): Plan
  {
    match req
    case Temp => next
    case Press => Then(ReadRegsCall(0xF7, 3), next)
    case Hum => Then(ReadRegsCall(0xFD, 2), next)
  }

  /** The helper calls of one round with requests `reqs`: the temperature first (it updates
      t_fine), then the follow-ups. */
  function ReadPlan(reqs: seq<Request>): Plan
  {
    Then(ReadRegsCall(0xFA, 3), FollowUps(reqs))
  }

  function Count(plan: Plan, c: Call): nat
  {
    match plan
    case Done => 0
    case Then(c', next) => (if c' == c then 1 else 0) + Count(next, c)
  }

  /** The temperature is read exactly once, before anything else; each pressure and each
      humidity request causes exactly one read of its own. */
  lemma {:induction false} ReadPlanCounts(reqs: seq<Request>)
    ensures ReadPlan(reqs).call == ReadRegsCall(0xFA, 3)
    ensures Count(ReadPlan(reqs), ReadRegsCall(0xFA, 3)) == 1
    ensures Count(ReadPlan(reqs), ReadRegsCall(0xF7, 3)) == multiset(reqs)[Press]
    ensures Count(ReadPlan(reqs), ReadRegsCall(0xFD, 2)) == multiset(reqs)[Hum]
  {
    FollowUpsCounts(reqs);
  }

  lemma {:induction false} FollowUpsCounts(reqs: seq<Request>)
    ensures Count(FollowUps(reqs), ReadRegsCall(0xFA, 3)) == 0
    ensures Count(FollowUps(reqs), ReadRegsCall(0xF7, 3)) == multiset(reqs)[Press]
    ensures Count(FollowUps(reqs), ReadRegsCall(0xFD, 2)) == multiset(reqs)[Hum]
  {
    if reqs != [] {
      FollowUpsCounts(reqs[1..]);
      assert reqs == [reqs[0]] + reqs[1..];
      assert multiset(reqs) == multiset{reqs[0]} + multiset(reqs[1..]);
    }
  }

  /** The follow-ups from request i on: request i's own read, if any, then those from
      request i+1 on. */
  lemma FollowUpsStep(reqs: seq<Request>, i: nat)
    requires i < |reqs|
    ensures FollowUps(reqs[i..]) == Answering(reqs[i], FollowUps(reqs[i + 1..]))
  {
    assert reqs[i..][0] == reqs[i] && reqs[i..][1..] == reqs[i + 1..];
  }

  /** One pass of the per-request loop of `proxy_run`: a temperature request is answered
      with the cached temperature, a pressure or humidity request by a read of its own. */
  method Answer(sensor: Sensor, bus: Twi, ghost run: (nat, Call) -> Txn, req: Request,
                tCached: int, ghost whole: seq<Event>, ghost next: Plan) returns (v: int)
    requires Runs(run, bus.oracle, BME280_ADDR)
    requires bus.trace + RunTrace(run, |bus.trace|, Answering(req, next)) == whole
    modifies bus`trace
    ensures bus.trace + RunTrace(run, |bus.trace|, next) == whole
    ensures req == Temp ==> v == tCached
  {
    match req {
      case Temp =>
        v := tCached;
      case Press =>
        ghost var r := Issue(run, whole, bus.trace, Answering(req, next));
        v := sensor.ReadPressure(bus);
      case Hum =>
        ghost var r := Issue(run, whole, bus.trace, Answering(req, next));
        v := sensor.ReadHumidity(bus);
    }
  }

  /** The reads and the per-request loop of `proxy_run`: the temperature is read once into
      `t_cached`, then each request in order is answered, a temperature request with
      `t_cached`. The values returned are the integers the source converts and prints. */
  method Serve(sensor: Sensor, bus: Twi, ghost run: (nat, Call) -> Txn, reqs: seq<Request>)
    returns (values: seq<int>)
    requires Runs(run, bus.oracle, BME280_ADDR)
    modifies sensor`tFine, bus`trace
    ensures bus.trace == old(bus.trace) + RunTrace(run, |old(bus.trace)|, ReadPlan(reqs))
    ensures |values| == |reqs|
    ensures forall i :: 0 <= i < |reqs| && reqs[i] == Temp ==> values[i] == TempCenti(sensor.tFine)
  {
    ghost var whole := bus.trace + RunTrace(run, |bus.trace|, ReadPlan(reqs));
    ghost var r := Issue(run, whole, bus.trace, ReadPlan(reqs));
    var tCached := sensor.ReadTemperature(bus);
    values := [];
    var i := 0;
    while i < |reqs|
      invariant 0 <= i <= |reqs| && |values| == i
      invariant bus.trace + RunTrace(run, |bus.trace|, FollowUps(reqs[i..])) == whole
      invariant tCached == TempCenti(sensor.tFine)
      invariant forall j :: 0 <= j < i && reqs[j] == Temp ==> values[j] == tCached
    {
      FollowUpsStep(reqs, i);
      var v := Answer(sensor, bus, run, reqs[i], tCached, whole, FollowUps(reqs[i + 1..]));
      ghost var before := values;
      values := values + [v];
      assert forall j :: 0 <= j < i ==> values[j] == before[j];
      i := i + 1;
    }
  }

  // ---- The loop of proxy_run

  /** The helper calls of a session in which the lines `lines` are typed: each line's reads
      in turn, up to the first line that quits. */
  function Session(lines: seq<seq<char>>): Plan
  {
    if lines == [] then Done
    else match Interpret(lines[0])
      case Quit => Done
      case Reads(reqs) => Append(ReadPlan(reqs), Session(lines[1..]))
      case _ => Session(lines[1..])
  }

  /** The session from line t on: nothing once line t quits, else line t's reads, if any,
      then the session from line t+1 on. */
  lemma SessionStep(lines: seq<seq<char>>, t: nat)
    requires t < |lines|
    ensures Interpret(lines[t]) == Quit ==> Session(lines[t..]) == Done
    ensures Interpret(lines[t]).Reads? ==>
      Session(lines[t..]) == Append(ReadPlan(Interpret(lines[t]).reqs), Session(lines[t + 1..]))
    ensures Interpret(lines[t]) in {Reprompt, NoCommand} ==> Session(lines[t..]) == Session(lines[t + 1..])
  {
    assert lines[t..][0] == lines[t] && lines[t..][1..] == lines[t + 1..];
  }

  /** `proxy_run` fed with the lines `lines`: it handles them in order until one quits,
      issuing the reads each asks for; it returns how many lines it took. (The source
      waits for more input when the lines run out; the model stops there.) */
  method Run(sensor: Sensor, bus: Twi, ghost run: (nat, Call) -> Txn, lines: seq<seq<char>>)
    returns (taken: nat)
    requires Runs(run, bus.oracle, BME280_ADDR)
    requires forall l, i :: l in lines && 0 <= i < |l| ==> l[i] != '\0'
    modifies sensor`tFine, bus`trace
    ensures taken <= |lines|
    ensures forall i :: 0 <= i < taken - 1 ==> Interpret(lines[i]) != Quit
    ensures taken < |lines| ==> taken > 0 && Interpret(lines[taken - 1]) == Quit
    ensures bus.trace == old(bus.trace) + RunTrace(run, |old(bus.trace)|, Session(lines))
  {
    ghost var whole := bus.trace + RunTrace(run, |bus.trace|, Session(lines));
    taken := 0;
    while taken < |lines|
      invariant taken <= |lines|
      invariant forall i :: 0 <= i < taken ==> Interpret(lines[i]) != Quit
      invariant bus.trace + RunTrace(run, |bus.trace|, Session(lines[taken..])) == whole
    {
      var line := lines[taken];
      var out := ParseLine(line);
      SessionStep(lines, taken);
      taken := taken + 1;
      if out == Quit {
        return;
      }
      if out.Reads? {
        IssuePlan(run, whole, bus.trace, ReadPlan(out.reqs), Session(lines[taken..]));
        var _ := Serve(sensor, bus, run, out.reqs);
      }
    }
  }
}
