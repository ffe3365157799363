/** The text handling of GCodeParser.parseLine (gcview.worker.js:50-154) after a line has
    been normalised: the comment test, the split into tokens, the mode-word table, the
    command test, the key/value decomposition of parameter tokens and the F/S/T scan. */
module Lexing {
  import opened GCode

  // ---------------------------------------------------------------- characters

  /** The characters JavaScript's `\s` matches. */
  predicate IsSpace(c: char) {
    var n := c as int;
    (9 <= n <= 13) || n == 32 || n == 0xA0 || n == 0x1680 || (0x2000 <= n <= 0x200A)
    || n == 0x2028 || n == 0x2029 || n == 0x202F || n == 0x205F || n == 0x3000 || n == 0xFEFF
  }

  predicate NoSpace(s: string) {
    forall i :: 0 <= i < |s| ==> !IsSpace(s[i])
  }

  /** String.prototype.toUpperCase on one character (ASCII letters only). */
  function UpperChar(c: char): char {
    if 'a' <= c <= 'z' then (c as int - 32) as char else c
  }

  /** String.prototype.toLowerCase on one character (ASCII letters only). */
  function LowerChar(c: char): char {
    if 'A' <= c <= 'Z' then (c as int + 32) as char else c
  }

  function Upper(s: string): string {
    seq(|s|, i requires 0 <= i < |s| => UpperChar(s[i]))
  }

  // ---------------------------------------------------------------- splitting

  /** Index of the first whitespace character of s, or |s| when there is none. */
  function FirstSpace(s: string): (k: nat)
    ensures k <= |s|
  {
    if s == [] || IsSpace(s[0]) then 0 else 1 + FirstSpace(s[1..])
  }

  lemma {:induction false} FirstSpaceIsFirst(s: string)
    ensures NoSpace(s[..FirstSpace(s)])
    ensures FirstSpace(s) < |s| ==> IsSpace(s[FirstSpace(s)])
  {
    if s != [] && !IsSpace(s[0]) {
      FirstSpaceIsFirst(s[1..]);
      assert s[..FirstSpace(s)] == [s[0]] + s[1..][..FirstSpace(s[1..])];
    }
  }

  /** s without its leading whitespace. */
  function TrimStart(s: string): (r: string)
    ensures |r| <= |s|
  {
    if s != [] && IsSpace(s[0]) then TrimStart(s[1..]) else s
  }

  /** `text.split(/\s+/)`: the pieces between maximal runs of whitespace. A leading
      (trailing) run gives an empty first (last) piece, and "" gives [""]. */
  function SplitWs(s: string): seq<string>
    decreases |s|
  {
    var k := FirstSpace(s);
    if k == |s| then [s] else [s[..k]] + SplitWs(TrimStart(s[k + 1..]))
  }

  /** Reference definition: the characters of s that are not whitespace. */
  function RemoveSpaces(s: string): string {
    if s == [] then [] else (if IsSpace(s[0]) then [] else [s[0]]) + RemoveSpaces(s[1..])
  }

  function Concat(pieces: seq<string>): string {
    if pieces == [] then [] else pieces[0] + Concat(pieces[1..])
  }

  lemma {:induction false} RemoveSpacesAppend(a: string, b: string)
    ensures RemoveSpaces(a + b) == RemoveSpaces(a) + RemoveSpaces(b)
  {
    if a != [] {
      assert (a + b)[1..] == a[1..] + b;
      RemoveSpacesAppend(a[1..], b);
    } else {
      assert a + b == b;
    }
  }

  lemma {:induction false} RemoveSpacesOfWord(s: string)
    requires NoSpace(s)
    ensures RemoveSpaces(s) == s
  {
    if s != [] {
      RemoveSpacesOfWord(s[1..]);
    }
  }

  lemma {:induction false} RemoveSpacesTrimStart(s: string)
    ensures RemoveSpaces(TrimStart(s)) == RemoveSpaces(s)
  {
    if s != [] && IsSpace(s[0]) {
      RemoveSpacesTrimStart(s[1..]);
    }
  }

  /** The text is its first piece, then whitespace, then what the split continues on. */
  lemma RemoveSpacesAtFirstSpace(s: string)
    requires FirstSpace(s) < |s|
    ensures RemoveSpaces(s) == s[..FirstSpace(s)] + RemoveSpaces(TrimStart(s[FirstSpace(s) + 1..]))
  {
    var k := FirstSpace(s);
    FirstSpaceIsFirst(s);
    assert s == s[..k] + s[k..];
    RemoveSpacesAppend(s[..k], s[k..]);
    RemoveSpacesOfWord(s[..k]);
    var t := s[k..];
    assert t[1..] == s[k + 1..];
    assert IsSpace(t[0]);
    assert RemoveSpaces(t) == RemoveSpaces(t[1..]);
    RemoveSpacesTrimStart(s[k + 1..]);
  }

  /** No piece of a split contains whitespace, and there is at least one piece. */
  lemma {:induction false} SplitWsPieces(s: string)
    ensures |SplitWs(s)| >= 1
    ensures forall p :: p in SplitWs(s) ==> NoSpace(p)
    decreases |s|
  {
    var k := FirstSpace(s);
    FirstSpaceIsFirst(s);
    if k < |s| {
      var rest := TrimStart(s[k + 1..]);
      SplitWsPieces(rest);
      assert SplitWs(s) == [s[..k]] + SplitWs(rest);
    } else {
      assert s[..k] == s;
    }
  }

  lemma ConcatOne(a: string)
    ensures Concat([a]) == a
  {
    assert [a][1..] == [];
  }

  lemma ConcatCons(a: string, tail: seq<string>)
    ensures Concat([a] + tail) == a + Concat(tail)
  {
    assert ([a] + tail)[1..] == tail;
  }

  /** One step of the split: the first piece, then the split of what follows the run. */
  lemma ConcatSplitWsStep(s: string)
    requires FirstSpace(s) < |s|
    ensures Concat(SplitWs(s)) == s[..FirstSpace(s)] + Concat(SplitWs(TrimStart(s[FirstSpace(s) + 1..])))
  {
    var k := FirstSpace(s);
    ConcatCons(s[..k], SplitWs(TrimStart(s[k + 1..])));
  }

  /** Joining the pieces of a split gives back the text without its whitespace. */
  lemma {:induction false} SplitWsKeepsText(s: string)
    ensures Concat(SplitWs(s)) == RemoveSpaces(s)
    decreases |s|
  {
    var k := FirstSpace(s);
    if k == |s| {
      FirstSpaceIsFirst(s);
      assert s[..k] == s;
      SplitWsOfWord(s);
      ConcatOne(s);
      RemoveSpacesOfWord(s);
    } else {
      var rest := TrimStart(s[k + 1..]);
      SplitWsKeepsText(rest);
      ConcatSplitWsStep(s);
      RemoveSpacesAtFirstSpace(s);
    }
  }

  /** The pieces with `sep` between each two: Array.prototype.join. */
  function JoinWith(pieces: seq<string>, sep: string): string
    decreases |pieces|
  {
    if pieces == [] then []
    else if |pieces| == 1 then pieces[0]
    else pieces[0] + sep + JoinWith(pieces[1..], sep)
  }

  /** Reference definition: s with each maximal run of whitespace replaced by one space. */
  function Collapse(s: string): string
    decreases |s|
  {
    if s == [] then []
    else if IsSpace(s[0]) then " " + Collapse(TrimStart(s[1..]))
    else [s[0]] + Collapse(s[1..])
  }

  lemma {:induction false} CollapseOfWord(s: string)
    requires NoSpace(s)
    ensures Collapse(s) == s
  {
    if s != [] {
      CollapseOfWord(s[1..]);
    }
  }

  /** Up to the first whitespace the text is kept as it is; the run there becomes one space. */
  lemma {:induction false} CollapseAtFirstSpace(s: string)
    requires FirstSpace(s) < |s|
    ensures Collapse(s) == s[..FirstSpace(s)] + " " + Collapse(TrimStart(s[FirstSpace(s) + 1..]))
    decreases |s|, 1
  {
    if IsSpace(s[0]) {
      assert FirstSpace(s) == 0;
      CollapseAtSpace(s);
    } else {
      CollapseBeforeSpace(s);
    }
  }

  lemma CollapseAtSpace(s: string)
    requires s != [] && IsSpace(s[0])
    ensures Collapse(s) == s[..0] + " " + Collapse(TrimStart(s[1..]))
  {
    assert s[..0] == [];
  }

  lemma {:induction false} CollapseBeforeSpace(s: string)
    requires 0 < |s| && !IsSpace(s[0]) && FirstSpace(s) < |s|
    ensures Collapse(s) == s[..FirstSpace(s)] + " " + Collapse(TrimStart(s[FirstSpace(s) + 1..]))
    decreases |s|, 0
  {
    var t := s[1..];
    var k := FirstSpace(s);
    assert k == FirstSpace(t) + 1;
    CollapseAtFirstSpace(t);
    assert s == [s[0]] + t;
    ConsBeforeSpace(s[0], t, k);
  }

  /** A character that is not whitespace, put before a text whose first whitespace is at
      k - 1, is kept in front of the first piece. */
  lemma ConsBeforeSpace(c: char, t: string, k: nat)
    requires 0 < k <= |t| && !IsSpace(c)
    requires Collapse(t) == t[..k - 1] + " " + Collapse(TrimStart(t[k..]))
    ensures Collapse([c] + t) == ([c] + t)[..k] + " " + Collapse(TrimStart(([c] + t)[k + 1..]))
  {
    ConsSlices(c, t, k);
    CollapseCons(c, t);
    ConsAppend(c, t[..k - 1], " ", Collapse(TrimStart(t[k..])));
  }

  lemma CollapseCons(c: char, t: string)
    requires !IsSpace(c)
    ensures Collapse([c] + t) == [c] + Collapse(t)
  {
    assert ([c] + t)[1..] == t;
  }

  lemma ConsSlices<T>(x: T, t: seq<T>, k: nat)
    requires 0 < k <= |t|
    ensures ([x] + t)[0] == x && ([x] + t)[1..] == t
    ensures ([x] + t)[..k] == [x] + t[..k - 1] && ([x] + t)[k + 1..] == t[k..]
  {
    assert ([x] + t)[..k] == [x] + t[..k - 1];
  }

  lemma ConsAppend<T>(x: T, a: seq<T>, b: seq<T>, d: seq<T>)
    ensures [x] + (a + b + d) == ([x] + a) + b + d
  {
  }

  /** The split is fixed by the text: joining the pieces with single spaces gives the text
      with every whitespace run collapsed to one space. Since no piece holds whitespace,
      the pieces are exactly the runs of non-space characters between those spaces. */
  lemma {:induction false} SplitWsJoin(s: string)
    ensures JoinWith(SplitWs(s), " ") == Collapse(s)
    decreases |s|
  {
    var k := FirstSpace(s);
    FirstSpaceIsFirst(s);
    if k == |s| {
      assert s[..k] == s;
      SplitWsOfWord(s);
      CollapseOfWord(s);
    } else {
      var rest := TrimStart(s[k + 1..]);
      SplitWsJoin(rest);
      SplitWsPieces(rest);
      CollapseAtFirstSpace(s);
      assert SplitWs(s) == [s[..k]] + SplitWs(rest);
      assert (([s[..k]] + SplitWs(rest))[1..]) == SplitWs(rest);
    }
  }

  lemma {:induction false} TrimStartFacts(s: string)
    ensures TrimStart(s) == [] || !IsSpace(TrimStart(s)[0])
  {
    if s != [] && IsSpace(s[0]) {
      TrimStartFacts(s[1..]);
    }
  }

  /** Only the first and the last piece can be empty: an empty piece in between would need
      two whitespace runs with nothing between them. */
  lemma {:induction false} SplitWsInnerPieces(s: string)
    ensures forall i :: 0 < i < |SplitWs(s)| - 1 ==> SplitWs(s)[i] != []
    decreases |s|
  {
    var k := FirstSpace(s);
    if k < |s| {
      var rest := TrimStart(s[k + 1..]);
      SplitWsInnerPieces(rest);
      TrimStartFacts(s[k + 1..]);
      var tail := SplitWs(rest);
      assert SplitWs(s) == [s[..k]] + tail;
      if rest != [] {
        FirstSpaceIsFirst(rest);
        if FirstSpace(rest) == |rest| {
          assert tail == [rest];
        } else {
          assert tail[0] == rest[..FirstSpace(rest)];
          assert FirstSpace(rest) > 0;
        }
      }
      forall i | 0 < i < |SplitWs(s)| - 1
        ensures SplitWs(s)[i] != []
      {
        assert SplitWs(s)[i] == tail[i - 1];
      }
    }
  }

  /** A text without whitespace is one token. */
  lemma SplitWsOfWord(s: string)
    requires NoSpace(s)
    ensures SplitWs(s) == [s]
  {
    FirstSpaceNone(s);
  }

  lemma {:induction false} FirstSpaceNone(s: string)
    requires NoSpace(s)
    ensures FirstSpace(s) == |s|
  {
    if s != [] {
      FirstSpaceNone(s[1..]);
    }
  }

  // ---------------------------------------------------------------- classification

  /** The comment test of line 52 on the normalised text: /^(;|\(|<)/. */
  predicate IsCommentText(text: string) {
    |text| > 0 && (text[0] == ';' || text[0] == '(' || text[0] == '<')
  }

  /** /^(G|M|T|S)/i on an upper-cased token (line 85). */
  predicate IsCommandWord(word: string) {
    |word| > 0 && word[0] in {'G', 'M', 'T', 'S'}
  }

  /** Mode words whose handler does nothing (lines 884-894, 913-929, 990-1022). */
  const NoOpModeWords: set<string> := {
    "G17", "G18", "G19",
    "G40", "G41", "G42", "G45", "G46", "G47", "G48", "G49",
    "G54", "G55", "G56", "G57", "G58", "G59", "G61", "G64", "G69",
    "M09", "M10", "M11", "M21", "M22", "M23", "M24",
    "M41", "M42", "M43", "M44", "M48", "M49", "M52", "M60", "M82", "M84"}

  /** The table of mode handlers (lines 883-1023), looked up by the upper-cased token. */
  function ModeOf(word: string): Option<ModeCmd> {
    if word == "G20" then Some(SetUnits(false))
    else if word == "G21" then Some(SetUnits(true))
    else if word == "G90" then Some(SetRelative(false))
    else if word == "G91" then Some(SetRelative(true))
    else if word == "G90.1" then Some(SetIjkRelative(false))
    else if word == "G91.1" then Some(SetIjkRelative(true))
    else if word == "M3" then Some(RecordEvent("m3"))
    else if word == "M4" then Some(RecordEvent("m4"))
    else if word == "M5" then Some(RecordEvent("m5"))
    else if word == "M6" then Some(RecordEvent("m6"))
    else if word == "M7" then Some(RecordEvent("m7"))
    else if word == "M8" then Some(RecordEvent("m8"))
    else if word in NoOpModeWords then Some(NoOp)
    else None
  }

  // ---------------------------------------------------------------- parameter words

  /** A parameter token sets the key `token[0].toLowerCase()` (lines 105-108). */
  predicate HasKey(token: string, key: char) {
    token != [] && LowerChar(token[0]) == key
  }

  /** The `args[key] = parseFloat(token.substring(1))` loop of lines 103-112: tokens in
      order, empty ones skipped, a later token overwriting an earlier one's key. */
  function WordsOf(tokens: seq<string>, parse: string -> real): map<char, real>
    decreases |tokens|
  {
    if tokens == [] then map[]
    else
      var words := WordsOf(tokens[..|tokens| - 1], parse);
      var t := tokens[|tokens| - 1];
      if t == [] then words else words[LowerChar(t[0]) := parse(t[1..])]
  }

  /** Token j is the last one that sets key. */
  predicate LastWithKey(tokens: seq<string>, j: int, key: char) {
    0 <= j < |tokens| && HasKey(tokens[j], key)
    && forall i :: j < i < |tokens| ==> !HasKey(tokens[i], key)
  }

  /** A key is set iff some token names it, and its value is that of the last such token. */
  lemma {:induction false} WordsOfLastWins(tokens: seq<string>, parse: string -> real, key: char)
    ensures key in WordsOf(tokens, parse) <==> exists j :: 0 <= j < |tokens| && HasKey(tokens[j], key)
    ensures key in WordsOf(tokens, parse) ==>
              exists j :: LastWithKey(tokens, j, key) && WordsOf(tokens, parse)[key] == parse(tokens[j][1..])
    decreases |tokens|
  {
    if tokens != [] {
      var n := |tokens| - 1;
      var front := tokens[..n];
      WordsOfLastWins(front, parse, key);
      assert forall j :: 0 <= j < n ==> front[j] == tokens[j];
      if HasKey(tokens[n], key) {
        assert LastWithKey(tokens, n, key);
      } else if key in WordsOf(front, parse) {
        var j :| LastWithKey(front, j, key) && WordsOf(front, parse)[key] == parse(front[j][1..]);
        forall i | j < i < |tokens|
          ensures !HasKey(tokens[i], key)
        {
          if i < n {
            assert tokens[i] == front[i];
          }
        }
        assert LastWithKey(tokens, j, key);
      }
    }
  }

  // ---------------------------------------------------------------- F, S and T

  predicate IsNumChar(c: char) {
    '0' <= c <= '9' || c == '.'
  }

  /** The longest prefix of s made of digits and dots: what `[\d.]+` captures. */
  function NumRun(s: string): (r: string)
    ensures |r| <= |s| && r == s[..|r|]
    ensures forall i :: 0 <= i < |r| ==> IsNumChar(r[i])
    ensures |r| < |s| ==> !IsNumChar(s[|r|])
  {
    if s != [] && IsNumChar(s[0]) then [s[0]] + NumRun(s[1..]) else []
  }

  /** `letter` (upper or lower case) at k, followed by a digit or a dot. */
  predicate MatchesAt(text: string, k: int, letter: char) {
    0 <= k < |text| - 1 && (text[k] == letter || text[k] == LowerChar(letter)) && IsNumChar(text[k + 1])
  }

  /** The capture group of /L([\d.]+)/i on the line's text (lines 125, 135, 145). */
  function ScanWord(text: string, letter: char): Option<string>
    decreases |text|
  {
    if |text| < 2 then None
    else if MatchesAt(text, 0, letter) then Some(NumRun(text[1..]))
    else ScanWord(text[1..], letter)
  }

  /** The scan fails iff the letter never stands before a digit or dot; otherwise it
      captures the whole run of digits and dots after the leftmost such letter. */
  lemma {:induction false} ScanWordLeftmost(text: string, letter: char)
    ensures ScanWord(text, letter).None? <==> forall k :: 0 <= k < |text| ==> !MatchesAt(text, k, letter)
    ensures ScanWord(text, letter).Some? ==>
              exists k :: MatchesAt(text, k, letter)
                          && (forall j :: 0 <= j < k ==> !MatchesAt(text, j, letter))
                          && ScanWord(text, letter).value == NumRun(text[k + 1..])
    decreases |text|
  {
    if |text| >= 2 && !MatchesAt(text, 0, letter) {
      var rest := text[1..];
      ScanWordLeftmost(rest, letter);
      assert forall k :: 0 <= k < |rest| ==> (MatchesAt(rest, k, letter) <==> MatchesAt(text, k + 1, letter));
      if ScanWord(rest, letter).None? {
        forall k | 0 <= k < |text|
          ensures !MatchesAt(text, k, letter)
        {
          if k > 0 { assert !MatchesAt(rest, k - 1, letter); }
        }
      } else {
        var k :| MatchesAt(rest, k, letter)
                 && (forall j :: 0 <= j < k ==> !MatchesAt(rest, j, letter))
                 && ScanWord(rest, letter).value == NumRun(rest[k + 1..]);
        assert rest[k + 1..] == text[k + 2..];
        assert MatchesAt(text, k + 1, letter);
        forall j | 0 <= j < k + 1
          ensures !MatchesAt(text, j, letter)
        {
          if j > 0 { assert !MatchesAt(rest, j - 1, letter); }
        }
      }
    } else if |text| >= 2 {
      assert MatchesAt(text, 0, letter);
    }
  }

  /** Last-seen-wins (lines 125-154): a scanned value replaces the remembered one. */
  function LastSeen(scan: Option<string>, last: Option<real>, parse: string -> real): Option<real> {
    if scan.Some? then Some(parse(scan.value)) else last
  }
}
