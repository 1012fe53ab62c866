/** Sending Morse: a message keyed on a timeline of dots, and a long message cut into parts whose
    keying, one after the other, is the keying of the whole. A signal is the state of the key in each
    sample; the tone and its edges are left out. */
module CwSplit {

  // ---- the code

  /** The elements of a character; a space is a word space, "/"; nothing if it is not sent. */
  function Code(c: char): string {
    match c
    case 'a' => ".-" case 'A' => ".-"
    case 'b' => "-..." case 'B' => "-..."
    case 'c' => "-.-." case 'C' => "-.-."
    case 'd' => "-.." case 'D' => "-.."
    case 'e' => "." case 'E' => "."
    case 'f' => "..-." case 'F' => "..-."
    case 'g' => "--." case 'G' => "--."
    case 'h' => "...." case 'H' => "...."
    case 'i' => ".." case 'I' => ".."
    case 'j' => ".---" case 'J' => ".---"
    case 'k' => "-.-" case 'K' => "-.-"
    case 'l' => ".-.." case 'L' => ".-.."
    case 'm' => "--" case 'M' => "--"
    case 'n' => "-." case 'N' => "-."
    case 'o' => "---" case 'O' => "---"
    case 'p' => ".--." case 'P' => ".--."
    case 'q' => "--.-" case 'Q' => "--.-"
    case 'r' => ".-." case 'R' => ".-."
    case 's' => "..." case 'S' => "..."
    case 't' => "-" case 'T' => "-"
    case 'u' => "..-" case 'U' => "..-"
    case 'v' => "...-" case 'V' => "...-"
    case 'w' => ".--" case 'W' => ".--"
    case 'x' => "-..-" case 'X' => "-..-"
    case 'y' => "-.--" case 'Y' => "-.--"
    case 'z' => "--.." case 'Z' => "--.."
    case '0' => "-----" case '1' => ".----" case '2' => "..---" case '3' => "...--" case '4' => "....-"
    case '5' => "....." case '6' => "-...." case '7' => "--..." case '8' => "---.." case '9' => "----."
    case '/' => "-..-." case '?' => "..--.." case '=' => "-...-" case '.' => ".-.-.-" case ',' => "--..--"
    case ' ' => "/"
    case _ => ""
  }

  predicate Element(c: char) {
    c == '.' || c == '-'
  }

  predicate Elements(s: string) {
    s != "" && forall i :: 0 <= i < |s| ==> Element(s[i])
  }

  lemma CodeForm(c: char)
    ensures |Code(c)| <= 6
    ensures c == ' ' <==> Code(c) == "/"
    ensures c != ' ' && Code(c) != "" ==> Elements(Code(c))
  {
  }

  // ---- the code read back

  /** The tree of the International Morse code (Recommendation ITU-R M.1677): from the root, node 1, a dot leads from
      node n to node 2 n and a dash to node 2 n + 1. */
  function Letter(node: nat): char {
    match node
    case 2 => 'E' case 3 => 'T' case 4 => 'I' case 5 => 'A' case 6 => 'N' case 7 => 'M'
    case 8 => 'S' case 9 => 'U' case 10 => 'R' case 11 => 'W' case 12 => 'D' case 13 => 'K' case 14 => 'G'
    case 15 => 'O'
    case 16 => 'H' case 17 => 'V' case 18 => 'F' case 20 => 'L' case 22 => 'P' case 23 => 'J' case 24 => 'B'
    case 25 => 'X' case 26 => 'C' case 27 => 'Y' case 28 => 'Z' case 29 => 'Q'
    case 32 => '5' case 33 => '4' case 35 => '3' case 39 => '2' case 47 => '1' case 48 => '6' case 49 => '='
    case 50 => '/' case 56 => '7' case 60 => '8' case 62 => '9' case 63 => '0'
    case 76 => '?' case 85 => '.' case 115 => ','
    case _ => ' '
  }

  function Dash(code: string, i: nat): nat {
    if i < |code| && code[i] == '-' then 1 else 0
  }

  /** The node a code leads to. */
  function Node(code: string): nat {
    match |code|
    case 1 => 2 + Dash(code, 0)
    case 2 => 4 + 2 * Dash(code, 0) + Dash(code, 1)
    case 3 => 8 + 4 * Dash(code, 0) + 2 * Dash(code, 1) + Dash(code, 2)
    case 4 => 16 + 8 * Dash(code, 0) + 4 * Dash(code, 1) + 2 * Dash(code, 2) + Dash(code, 3)
    case 5 => 32 + 16 * Dash(code, 0) + 8 * Dash(code, 1) + 4 * Dash(code, 2) + 2 * Dash(code, 3) + Dash(code, 4)
    case 6 => 64 + 32 * Dash(code, 0) + 16 * Dash(code, 1) + 8 * Dash(code, 2) + 4 * Dash(code, 3) + 2 * Dash(code, 4)
              + Dash(code, 5)
    case _ => 1
  }

  function Capital(c: char): char {
    if 'a' <= c <= 'z' then c - 'a' + 'A' else c
  }

  /** The characters sent are the letters, the figures, five signs and the space, and the code of each but the
      space leads to it in the tree. */
  lemma CodeReadsBack(c: char)
    ensures Code(c) != "" <==>
      || 'a' <= c <= 'z' || 'A' <= c <= 'Z' || '0' <= c <= '9'
      || c == '/' || c == '?' || c == '=' || c == '.' || c == ',' || c == ' '
    ensures c == ' ' || Code(c) == "" || Letter(Node(Code(c))) == Capital(c)
  {
    hide Code, Letter, Node;
    CharactersSent(c);
    if '0' <= c <= '9' {
      FigureReadsBack(c);
    } else if 'A' <= c <= 'M' {
      CapitalAM(c);
    } else if 'N' <= c <= 'Z' {
      CapitalNZ(c);
    } else if 'a' <= c <= 'm' {
      SmallAM(c);
    } else if 'n' <= c <= 'z' {
      SmallNZ(c);
    } else if c == '/' || c == '=' {
      SignReadsBack(c);
    } else if c == '?' || c == '.' || c == ',' {
      StopReadsBack(c);
    }
  }

  lemma CharactersSent(c: char)
    ensures Code(c) != "" <==>
      || 'a' <= c <= 'z' || 'A' <= c <= 'Z' || '0' <= c <= '9'
      || c == '/' || c == '?' || c == '=' || c == '.' || c == ',' || c == ' '
  {
  }

  lemma FigureReadsBack(c: char)
    requires '0' <= c <= '9'
    ensures Letter(Node(Code(c))) == Capital(c)
  {
  }

  lemma SignReadsBack(c: char)
    requires c == '/' || c == '='
    ensures Letter(Node(Code(c))) == Capital(c)
  {
  }

  lemma StopReadsBack(c: char)
    requires c == '?' || c == '.' || c == ','
    ensures Letter(Node(Code(c))) == Capital(c)
  {
    hide Letter;
    var n := Node(Code(c));
    assert n == if c == '?' then 76 else if c == '.' then 85 else 115;
    StopLetters();
  }

  lemma StopLetters()
    ensures Letter(76) == '?' && Letter(85) == '.' && Letter(115) == ','
  {
  }

  lemma CapitalAM(c: char)
    requires 'A' <= c <= 'M'
    ensures Letter(Node(Code(c))) == Capital(c)
  {
  }

  lemma CapitalNZ(c: char)
    requires 'N' <= c <= 'Z'
    ensures Letter(Node(Code(c))) == Capital(c)
  {
  }

  lemma SmallAM(c: char)
    requires 'a' <= c <= 'm'
    ensures Letter(Node(Code(c))) == Capital(c)
  {
  }

  lemma SmallNZ(c: char)
    requires 'n' <= c <= 'z'
    ensures Letter(Node(Code(c))) == Capital(c)
  {
  }

  // ---- the timeline: what is on the key, dot by dot

  function Held(key: bool, n: nat): (t: seq<bool>)
    ensures |t| == n && forall i :: 0 <= i < n ==> t[i] == key
  {
    seq(n, _ => key)
  }

  function Tone(e: char): seq<bool> {
    Held(true, if e == '.' then 1 else 3)
  }

  /** The elements of a character, one dot apart. */
  function Keyed(code: string): seq<bool> {
    if code == "" then []
    else if |code| == 1 then Tone(code[0])
    else Keyed(code[..|code| - 1]) + Held(false, 1) + Tone(code[|code| - 1])
  }

  /** A character with the three dots after it; a space is four more, seven in all. */
  function Sent(c: char): seq<bool> {
    if c == ' ' then Held(false, 4) else if Code(c) == "" then [] else Keyed(Code(c)) + Held(false, 3)
  }

  function Timeline(text: string): seq<bool> {
    if text == "" then [] else Timeline(text[..|text| - 1]) + Sent(text[|text| - 1])
  }

  lemma {:induction false} TimelineConcat(a: string, b: string)
    ensures Timeline(a + b) == Timeline(a) + Timeline(b)
  {
    hide Sent;
    if b == "" {
      assert a + b == a;
    } else {
      TimelineConcat(a, b[..|b| - 1]);
      assert (a + b)[..|a + b| - 1] == a + b[..|b| - 1];
    }
  }

  /** The word PARIS with its word space is fifty dots: what makes a dot of 1.2 s over the words a minute. */
  lemma ParisIsFifty()
    ensures |Timeline("PARIS ")| == 50
  {
    hide Timeline, Sent;
    assert "PARIS " == "PARIS" + [' '] && "PARIS" == "PARI" + ['S'] && "PARI" == "PAR" + ['I'] && "PAR" == "PA" + ['R'];
    assert "PA" == "P" + ['A'] && "P" == "" + ['P'];
    TimelineOf("PARIS", ' ');
    TimelineOf("PARI", 'S');
    TimelineOf("PAR", 'I');
    TimelineOf("PA", 'R');
    TimelineOf("P", 'A');
    TimelineOf("", 'P');
    SentLengths();
  }

  lemma TimelineOf(a: string, c: char)
    ensures |Timeline(a + [c])| == |Timeline(a)| + |Sent(c)| && Timeline("") == []
  {
    hide Sent;
    assert (a + [c])[..|a|] == a;
  }

  lemma SentLengths()
    ensures |Sent('P')| == 14 && |Sent('A')| == 8 && |Sent('R')| == 10 && |Sent('I')| == 6 && |Sent('S')| == 8
    ensures |Sent('E')| == 4 && |Sent(' ')| == 4
  {
    hide Keyed;
    CodesOfParis();
    KeyedLength(Code('P'));
    KeyedLength(Code('A'));
    KeyedLength(Code('R'));
    KeyedLength(Code('I'));
    KeyedLength(Code('S'));
    hide Code;
    assert |Keyed(".")| == 1 by { OneDot(); }
  }

  lemma CodesOfParis()
    ensures Code('P') == ".--." && Code('A') == ".-" && Code('R') == ".-." && Code('I') == ".." && Code('S') == "..."
    ensures Code('E') == "." && Code(' ') == "/"
  {
  }

  lemma OneDot()
    ensures Keyed(".") == [true]
  {
  }

  /** The tones of a code and the gaps between them. */
  lemma KeyedLength(code: string)
    requires 2 <= |code| <= 4
    ensures |code| == 2 ==> |Keyed(code)| == 1 + |Tone(code[0])| + |Tone(code[1])|
    ensures |code| == 3 ==> |Keyed(code)| == 2 + |Tone(code[0])| + |Tone(code[1])| + |Tone(code[2])|
    ensures |code| == 4 ==> |Keyed(code)| == 3 + |Tone(code[0])| + |Tone(code[1])| + |Tone(code[2])| + |Tone(code[3])|
  {
    hide Tone;
    if |code| > 2 {
      KeyedLength(code[..|code| - 1]);
    } else {
      assert code[..1][0] == code[0];
    }
  }

  // ---- the pattern: the codes with a space between them

  function Pattern(text: string): string {
    if text == "" then ""
    else
      var p, code := Pattern(text[..|text| - 1]), Code(text[|text| - 1]);
      if code == "" then p else if p == "" then code else p + " " + code
  }

  /** What a pattern puts on the key: an element, after a gap if one stood before it, or a longer gap. */
  function Keys(p: string): seq<bool> {
    if p == "" then []
    else
      var n, c := |p| - 1, p[|p| - 1];
      Keys(p[..n]) +
      if Element(c) then (if n > 0 && Element(p[n - 1]) then Held(false, 1) else []) + Tone(c)
      else Held(false, if c == '/' then 1 else 3)
  }

  lemma KeysSnoc(p: string, c: char)
    ensures Keys(p + [c]) == Keys(p) +
      if Element(c) then (if p != "" && Element(p[|p| - 1]) then Held(false, 1) else []) + Tone(c)
      else Held(false, if c == '/' then 1 else 3)
  {
    assert (p + [c])[..|p|] == p;
  }

  lemma KeyedSnoc(code: string, c: char)
    ensures Keyed(code + [c]) == if code == "" then Tone(c) else Keyed(code) + Held(false, 1) + Tone(c)
  {
    assert (code + [c])[..|code|] == code;
  }

  /** The elements of a character put after a gap. */
  lemma {:induction false} KeysElements(p: string, code: string)
    requires Elements(code) && (p != "" ==> !Element(p[|p| - 1]))
    ensures Keys(p + code) == Keys(p) + Keyed(code)
  {
    hide Keys, Tone, Keyed, Held;
    var n := |code| - 1;
    var a, c := code[..n], code[n];
    assert code == a + [c] && p + code == p + a + [c];
    KeysSnoc(p + a, c);
    KeyedSnoc(a, c);
    if n > 0 {
      KeysElements(p, a);
      Regroup(Keys(p), Keyed(a), Held(false, 1), Tone(c));
    } else {
      assert p + a == p;
      assert [] + Tone(c) == Tone(c);
    }
  }

  lemma Regroup(a: seq<bool>, b: seq<bool>, c: seq<bool>, d: seq<bool>)
    ensures a + b + (c + d) == a + (b + c + d)
  {
  }

  /** The keys of a pattern, with a character gap at the end, are the timeline of its text. */
  lemma {:induction false} PatternTimeline(text: string)
    ensures Tallies(text)
  {
    hide Code, Keys, Sent, Tallies;
    if text == "" {
      NothingTallies();
    } else {
      PatternTimeline(text[..|text| - 1]);
      OneMoreTallies(text[..|text| - 1], text[|text| - 1]);
      assert text[..|text| - 1] + [text[|text| - 1]] == text;
    }
  }

  ghost predicate Tallies(text: string) {
    if Pattern(text) == "" then Timeline(text) == [] else Keys(Pattern(text)) + Held(false, 3) == Timeline(text)
  }

  lemma NothingTallies()
    ensures Tallies("")
  {
  }

  lemma OneMoreTallies(a: string, c: char)
    requires Tallies(a)
    ensures Tallies(a + [c])
  {
    hide Code, Keys, Keyed, Elements;
    var text := a + [c];
    assert text[..|a|] == a;
    CodeForm(c);
    var p, code := Pattern(a), Code(c);
    if code != "" {
      var q := if p == "" then "" else p + " ";
      KeysEmpty();
      KeysSnoc(p, ' ');
      assert Keys(q) == Timeline(a);
      assert Pattern(text) == q + code;
      hide Pattern;
      CodeSent(q, c);
    }
  }

  /** A code after a gap, and the gap after it, are what its character sends. */
  lemma CodeSent(q: string, c: char)
    requires Code(c) != "" && (q != "" ==> !Element(q[|q| - 1]))
    ensures Keys(q + Code(c)) + Held(false, 3) == Keys(q) + Sent(c)
  {
    hide Code, Keys, Keyed, Held, Elements;
    CodeForm(c);
    if c == ' ' {
      KeysSnoc(q, '/');
      HeldBoth(false, 1, 3);
      Associate(Keys(q), Held(false, 1), Held(false, 3));
    } else {
      KeysElements(q, Code(c));
      Associate(Keys(q), Keyed(Code(c)), Held(false, 3));
    }
  }

  lemma HeldBoth(key: bool, m: nat, n: nat)
    ensures Held(key, m) + Held(key, n) == Held(key, m + n)
  {
  }

  lemma Associate(a: seq<bool>, b: seq<bool>, c: seq<bool>)
    ensures a + b + c == a + (b + c)
  {
  }

  lemma KeysEmpty()
    ensures Keys("") == []
  {
  }

  /** Each character of a pattern takes a dot at least, and four at most. */
  lemma {:induction false} KeysLength(p: string)
    ensures |p| <= |Keys(p)| <= 4 * |p|
  {
    if p != "" {
      KeysLength(p[..|p| - 1]);
    }
  }

  // ---- samples

  /** A timeline at dot samples a dot. */
  function Stretched(t: seq<bool>, dot: nat): (s: seq<bool>)
    ensures |s| == |t| * dot
  {
    if t == [] then [] else Stretched(t[..|t| - 1], dot) + Held(t[|t| - 1], dot)
  }

  lemma {:induction false} StretchedConcat(a: seq<bool>, b: seq<bool>, dot: nat)
    ensures Stretched(a + b, dot) == Stretched(a, dot) + Stretched(b, dot)
  {
    if b == [] {
      assert a + b == a;
    } else {
      StretchedConcat(a, b[..|b| - 1], dot);
      assert (a + b)[..|a + b| - 1] == a + b[..|b| - 1];
    }
  }

  lemma StretchedSnoc(t: seq<bool>, key: bool, dot: nat)
    ensures Stretched([], dot) == [] && Stretched(t + [key], dot) == Stretched(t, dot) + Held(key, dot)
  {
    assert (t + [key])[..|t|] == t;
  }

  lemma {:induction false} StretchedHeld(key: bool, n: nat, dot: nat)
    ensures Stretched(Held(key, n), dot) == Held(key, n * dot)
  {
    hide Stretched, Held;
    if n == 0 {
      StretchedSnoc([], key, dot);
      assert Held(key, 0) == [] && Held(key, 0 * dot) == [];
    } else {
      StretchedHeld(key, n - 1, dot);
      assert Held(key, n) == Held(key, n - 1) + [key];
      StretchedSnoc(Held(key, n - 1), key, dot);
      HeldBoth(key, (n - 1) * dot, dot);
      assert (n - 1) * dot + dot == n * dot;
    }
  }

  /** As much of s as the buffer takes. */
  function Cut(s: seq<bool>, max: nat): (c: seq<bool>)
    ensures |c| <= max
  {
    if |s| <= max then s else s[..max]
  }

  /** A tone or a silence of n samples, as far as there is room. */
  method Emit(signal: seq<bool>, max: nat, n: nat, key: bool, ghost s: seq<bool>) returns (out: seq<bool>)
    requires signal == Cut(s, max)
    ensures out == Cut(s + Held(key, n), max)
  {
    out := signal;
    var i := 0;
    while i < n && |out| < max
      invariant i <= n && |out| <= max && out == signal + Held(key, i)
    {
      out := out + [key];
      i := i + 1;
    }
  }

  /** A part of a pattern's keys, put out by the dot. */
  method EmitDots(signal: seq<bool>, max: nat, dots: nat, dot: nat, key: bool, ghost t: seq<bool>) returns (out: seq<bool>)
    requires signal == Cut(Stretched(t, dot), max)
    ensures out == Cut(Stretched(t + Held(key, dots), dot), max)
  {
    hide Stretched;
    StretchedConcat(t, Held(key, dots), dot);
    StretchedHeld(key, dots, dot);
    out := Emit(signal, max, dots * dot, key, Stretched(t, dot));
  }

  const MAX_PATTERN := 1024

  /** What the pattern buffer holds of a text's pattern. */
  predicate PatternHeld(text: string, pattern: string) {
    && |pattern| < MAX_PATTERN && pattern <= Pattern(text)
    && (|Pattern(text)| < MAX_PATTERN ==> pattern == Pattern(text))
    && (pattern == Pattern(text) || |pattern| >= MAX_PATTERN - 2)
  }

  /** The pattern of a text, cut off if the buffer does not hold it. For a text none of whose characters
      is sent nothing is written, and the buffer is whatever it was. */
  method LookupMorse(text: string) returns (pattern: string)
    ensures Pattern(text) != "" ==> PatternHeld(text, pattern)
  {
    hide Code, Pattern;
    pattern := "";
    NoPattern();
    assert text[..0] == "";
    var i := 0;
    while i < |text| && |pattern| < MAX_PATTERN - 2
      invariant i <= |text| && |pattern| < MAX_PATTERN && pattern <= Pattern(text[..i])
      invariant pattern == Pattern(text[..i]) || |Pattern(text[..i])| >= MAX_PATTERN
      invariant |pattern| < MAX_PATTERN - 2 ==> pattern == Pattern(text[..i])
    {
      PatternSnoc(text, i);
      var code := Code(text[i]);
      if code != "" {
        pattern := AddCode(pattern, code);
      }
      i := i + 1;
    }
    PatternGrows(text, i);
    assert text[..|text|] == text;
    if pattern == "" {
      pattern := *;
    }
  }

  lemma NoPattern()
    ensures Pattern("") == ""
  {
  }

  lemma PatternSnoc(text: string, i: nat)
    requires i < |text|
    ensures var p, code := Pattern(text[..i]), Code(text[i]);
      Pattern(text[..i + 1]) == if code == "" then p else if p == "" then code else p + " " + code
  {
    hide Code;
    assert text[..i + 1][..i] == text[..i];
  }

  method AddCode(pattern: string, code: string) returns (p: string)
    requires |pattern| < MAX_PATTERN - 2 && code != ""
    ensures var whole := if pattern == "" then code else pattern + " " + code;
      p <= whole && |p| < MAX_PATTERN && (p == whole || |p| == MAX_PATTERN - 1 < |whole|)
  {
    p := if pattern == "" then "" else pattern + " ";
    ghost var q := p;
    var j := 0;
    while j < |code| && |p| < MAX_PATTERN - 1
      invariant j <= |code| && |p| < MAX_PATTERN && p == q + code[..j]
    {
      p := p + [code[j]];
      j := j + 1;
    }
    assert q + code == (if pattern == "" then code else pattern + " " + code);
    assert j == |code| ==> code[..j] == code;
  }

  /** A longer text has the same pattern, or one longer by two characters at least. */
  lemma {:induction false} PatternGrows(text: string, i: nat)
    requires i <= |text|
    ensures var p, q := Pattern(text[..i]), Pattern(text); p <= q && (p == q || p == "" || |q| >= |p| + 2)
  {
    hide Code, Pattern;
    if i < |text| {
      var n := |text| - 1;
      PatternGrows(text[..n], i);
      assert text[..n][..i] == text[..i] && text[..n + 1] == text;
      PatternSnoc(text, n);
      if Pattern(text[..n]) == "" {
        assert Pattern(text[..i]) == "";
      }
    } else {
      assert text[..i] == text;
    }
  }

  /** What goes out for a text: the keys of its pattern, as far as the pattern holds it, and a
      character gap, as far as the signal has room. */
  method Encode(text: string, max: nat, dot: nat) returns (signal: seq<bool>, ghost pattern: string)
    ensures Pattern(text) != "" ==> PatternHeld(text, pattern)
    ensures Pattern(text) != "" && |Pattern(text)| < MAX_PATTERN ==>
      signal == Cut(Stretched(Keys(Pattern(text)) + Held(false, 3), dot), max)
    ensures |signal| <= max && signal == Cut(Stretched(Keys(pattern) + Held(false, 3), dot), max)
  {
    hide Keys, Stretched, Held, Pattern, Cut;
    var p := LookupMorse(text);
    pattern := p;
    signal := [];
    KeysEmpty();
    NoSamples(dot, max);
    assert p[..0] == "";
    var pos := 0;
    var prevElement := false;
    while pos < |p| && |signal| < max
      invariant pos <= |p| && prevElement == (pos > 0 && Element(p[pos - 1]))
      invariant signal == Cut(Stretched(Keys(p[..pos]), dot), max)
    {
      signal, prevElement := EmitKey(signal, max, dot, p[pos], prevElement, p[..pos]);
      assert p[..pos] + [p[pos]] == p[..pos + 1];
      pos := pos + 1;
    }
    assert p[..|p|] == p;
    KeysGrow(p, pos);
    StretchedGrows(Keys(p[..pos]), Keys(p), dot, max);
    signal := EmitDots(signal, max, 3, dot, false, Keys(p));
  }

  /** What one character of the pattern puts on the key. */
  method EmitKey(signal: seq<bool>, max: nat, dot: nat, c: char, prevElement: bool, ghost q: string)
    returns (out: seq<bool>, element: bool)
    requires prevElement == (q != "" && Element(q[|q| - 1])) && signal == Cut(Stretched(Keys(q), dot), max)
    ensures out == Cut(Stretched(Keys(q + [c]), dot), max) && element == Element(c)
  {
    hide Keys, Stretched, Held;
    KeysSnoc(q, c);
    out, element := signal, Element(c);
    if !element {
      out := EmitDots(out, max, if c == '/' then 1 else 3, dot, false, Keys(q));
      return;
    }
    ghost var t := Keys(q);
    if prevElement {
      out := EmitDots(out, max, 1, dot, false, t);
      t := t + Held(false, 1);
      Associate(Keys(q), Held(false, 1), Tone(c));
    } else {
      assert [] + Tone(c) == Tone(c);
    }
    out := EmitDots(out, max, if c == '.' then 1 else 3, dot, true, t);
  }

  lemma NoSamples(dot: nat, max: nat)
    ensures Cut(Stretched([], dot), max) == []
  {
  }

  lemma {:induction false} KeysGrow(p: string, i: nat)
    requires i <= |p|
    ensures Keys(p[..i]) <= Keys(p)
  {
    if i < |p| {
      KeysGrow(p[..|p| - 1], i);
      assert p[..|p| - 1][..i] == p[..i];
    } else {
      assert p[..i] == p;
    }
  }

  /** When the signal is full, what follows changes nothing. */
  lemma StretchedGrows(a: seq<bool>, b: seq<bool>, dot: nat, max: nat)
    requires a <= b && (a == b || |Cut(Stretched(a, dot), max)| >= max)
    ensures Cut(Stretched(a, dot), max) == Cut(Stretched(b, dot), max)
  {
    hide Stretched;
    StretchedConcat(a, b[|a|..], dot);
    assert a + b[|a|..] == b;
  }

  // ---- parts

  const MOST_DOTS := 1000
  const MOST_SAMPLES := 0x7fff_ffff
  const SLOWEST := 115200             // samples a dot at one word a minute
  const PART := 1024

  /** The text, keyed, fits the signal. */
  ghost predicate Fits(text: string, max: nat, dot: nat) {
    |Timeline(text)| * dot <= max
  }

  /** A signal of a thousand dots at most: what fits it, the pattern buffer holds. */
  lemma FitsPattern(text: string, max: nat, dot: nat)
    requires dot > 0 && max <= MOST_DOTS * dot && Fits(text, max, dot)
    ensures |Pattern(text)| < MAX_PATTERN - 2
  {
    hide Pattern, Timeline, Keys;
    PatternTimeline(text);
    KeysLength(Pattern(text));
    Fewer(|Timeline(text)|, MOST_DOTS, dot);
  }

  lemma Fewer(a: nat, b: nat, dot: nat)
    requires dot > 0
    ensures a * dot <= b * dot ==> a <= b
    ensures a <= b ==> a * dot <= b * dot
  {
  }

  /** How many samples a text takes. */
  method CwSamples(text: string, dot: nat, ghost max: nat) returns (n: nat)
    requires 0 < dot <= SLOWEST
    ensures Pattern(text) != "" && max <= MOST_DOTS * dot ==> (n <= max <==> Fits(text, max, dot))
  {
    hide Pattern, Timeline, Keys, Stretched, Held;
    var signal;
    ghost var p;
    signal, p := Encode(text, MOST_SAMPLES, dot);
    n := |signal|;
    if Pattern(text) != "" && max <= MOST_DOTS * dot {
      KeysLength(p);
      var d := |Keys(p) + Held(false, 3)|;
      Fewer(d, 4 * MAX_PATTERN, dot);
      assert n == d * dot;
      PatternTimeline(text);
      if Fits(text, max, dot) {
        FitsPattern(text, max, dot);
        PrefixLength(p, Pattern(text));
      } else if n <= max {
        Fewer(d, MOST_DOTS, dot);
      }
    }
  }

  lemma PrefixLength(a: string, b: string)
    requires a <= b
    ensures |a| <= |b|
  {
  }

  /** A message goes out whole, given room, exactly if the pattern buffer holds its pattern. */
  method EncodeMessage(text: string, max: nat, dot: nat) returns (signal: seq<bool>)
    requires dot > 0 && Pattern(text) != "" && Fits(text, max, dot)
    ensures signal == Stretched(Timeline(text), dot) <==> |Pattern(text)| < MAX_PATTERN
  {
    hide Pattern, Timeline, Keys, Stretched, Held;
    ghost var p;
    signal, p := Encode(text, max, dot);
    PatternTimeline(text);
    if |Pattern(text)| >= MAX_PATTERN {
      LessKeyed(p, Pattern(text));
      var d := |Keys(p) + Held(false, 3)|;
      Fewer(d, |Timeline(text)|, dot);
      Fewer(|Timeline(text)|, d, dot);
    }
  }

  /** A shorter pattern keys less. */
  lemma LessKeyed(p: string, q: string)
    requires p <= q && |p| < |q|
    ensures |Keys(p)| < |Keys(q)|
  {
    hide Keys;
    var n := |q| - 1;
    var r := q[..n];
    KeysGrow(r, |p|);
    assert r[..|p|] == p && r + [q[n]] == q;
    KeysOneMore(r, q[n]);
  }

  lemma KeysOneMore(p: string, c: char)
    ensures |Keys(p + [c])| > |Keys(p)|
  {
    hide Keys;
    KeysSnoc(p, c);
  }

  /** What fits goes out as its timeline. */
  lemma FitsExactly(text: string, p: string, signal: seq<bool>, max: nat, dot: nat)
    requires dot > 0 && max <= MOST_DOTS * dot && Fits(text, max, dot) && Pattern(text) != ""
    requires |p| < MAX_PATTERN && p <= Pattern(text) && (|Pattern(text)| < MAX_PATTERN ==> p == Pattern(text))
    requires signal == Cut(Stretched(Keys(p) + Held(false, 3), dot), max)
    ensures signal == Stretched(Timeline(text), dot)
  {
    hide Pattern, Timeline, Keys, Stretched, Held;
    FitsPattern(text, max, dot);
    PrefixLength(p, Pattern(text));
    PatternTimeline(text);
  }

  /** The signal has room for any character with its word space, and is a thousand dots at most. */
  ghost predicate Roomy(max: nat, dot: nat) {
    && max <= MOST_DOTS * dot
    && forall c :: Code(c) != "" ==> (|Sent(c)| + 4) * dot <= max
  }

  /** A text of characters that are sent, with single spaces between the words. */
  ghost predicate Sendable(text: string) {
    && (forall i :: 0 <= i < |text| ==> Code(text[i]) != "")
    && (forall i, j :: 0 <= i && j == i + 1 < |text| ==> text[i] != ' ' || text[j] != ' ')
  }

  lemma SomePattern(text: string)
    requires text != "" && Code(text[|text| - 1]) != ""
    ensures Pattern(text) != ""
  {
    hide Code;
  }

  function SpacesEnd(text: string, from: nat): (k: nat)
    requires from <= |text|
    ensures from <= k <= |text|
    decreases |text| - from
  {
    if from < |text| && text[from] == ' ' then SpacesEnd(text, from + 1) else from
  }

  function LettersEnd(text: string, from: nat): (k: nat)
    requires from <= |text|
    ensures from <= k <= |text|
    decreases |text| - from
  {
    if from < |text| && text[from] != ' ' then LettersEnd(text, from + 1) else from
  }

  /** Where the next word ends, with the space after it. */
  function WordEnd(text: string, from: nat): (k: nat)
    requires from <= |text|
    ensures from <= k <= |text|
  {
    var w := LettersEnd(text, SpacesEnd(text, from));
    if w < |text| then w + 1 else w
  }

  method SkipSpaces(text: string, from: nat) returns (k: nat)
    requires from <= |text|
    ensures from <= k <= |text| && (k < |text| ==> text[k] != ' ') && forall i :: from <= i < k ==> text[i] == ' '
    ensures k == SpacesEnd(text, from)
  {
    k := from;
    while k < |text| && text[k] == ' '
      invariant from <= k <= |text| && SpacesEnd(text, k) == SpacesEnd(text, from)
      invariant forall i :: from <= i < k ==> text[i] == ' '
    {
      k := k + 1;
    }
  }

  method SkipWord(text: string, from: nat) returns (k: nat)
    requires from <= |text|
    ensures from <= k <= |text| && (k < |text| ==> text[k] == ' ') && forall i :: from <= i < k ==> text[i] != ' '
    ensures k == LettersEnd(text, from)
  {
    k := from;
    while k < |text| && text[k] != ' '
      invariant from <= k <= |text| && LettersEnd(text, k) == LettersEnd(text, from)
      invariant forall i :: from <= i < k ==> text[i] != ' '
    {
      k := k + 1;
    }
  }

  /** A character, or a character and a space, fits. */
  lemma OneFits(p: string, n: nat, max: nat, dot: nat)
    requires dot > 0 && Roomy(max, dot) && 1 <= n <= 2 && n <= |p| && Code(p[0]) != "" && (n == 2 ==> p[1] == ' ')
    ensures Fits(p[..n], max, dot)
  {
    hide Code;
    assert p[..1] == [p[0]] && [p[0]][..0] == "";
    assert Timeline("") == [];
    assert Timeline(p[..1]) == Sent(p[0]);
    if n == 2 {
      assert p[..2][..1] == p[..1] && p[..2][1] == ' ';
      assert Timeline(p[..2]) == Sent(p[0]) + Held(false, 4);
    }
    Fewer(|Timeline(p[..n])|, |Sent(p[0])| + 4, dot);
  }

  /** The longest run of whole words that fits, with the space after it: one word more does not fit, or is
      too long for the part; 0 if the first word does not fit. */
  method WholeWords(p: string, max: nat, dot: nat) returns (best: nat)
    requires p != "" && p[0] != ' ' && 0 < dot <= SLOWEST
    ensures best <= |p|
    ensures Sendable(p) && Roomy(max, dot) && best > 0 ==>
      Fits(p[..best], max, dot) && (best < |p| ==> p[best] != ' ')
    ensures Sendable(p) && Roomy(max, dot) && best == 0 ==> |p| > 1 && p[1] != ' '
    ensures best == 0 || best == |p| || p[best - 1] == ' '
    ensures Sendable(p) && Roomy(max, dot) && best < |p| ==>
      WordEnd(p, best) >= PART || !Fits(p[..WordEnd(p, best)], max, dot)
  {
    hide Fits, Pattern, Roomy, Sendable, Code, SpacesEnd, LettersEnd;
    best := 0;
    while best < |p|
      invariant best <= |p| && (best == 0 || best == |p| || p[best - 1] == ' ')
      invariant Sendable(p) && Roomy(max, dot) && best > 0 ==>
        Fits(p[..best], max, dot) && (best < |p| ==> p[best] != ' ')
      decreases |p| - best
    {
      var w := SkipSpaces(p, best);
      w := SkipWord(p, w);
      var n := if w < |p| then w + 1 else w;
      assert n == WordEnd(p, best);
      if n >= PART {
        break;
      }
      var samples := CwSamples(p[..n], dot, max);
      if Sendable(p) && Roomy(max, dot) {
        SendableFacts(p, n, max, dot);
        if best == 0 && n <= 2 && (n == 2 ==> p[1] == ' ') {
          OneFits(p, n, max, dot);
        }
      }
      if samples > max {
        break;
      }
      best := n;
      if w == |p| {
        break;
      }
    }
  }

  lemma SendableFacts(p: string, n: nat, max: nat, dot: nat)
    requires Sendable(p) && Roomy(max, dot) && 0 < n <= |p|
    ensures Pattern(p[..n]) != "" && max <= MOST_DOTS * dot && Code(p[0]) != ""
    ensures n < |p| && p[n - 1] == ' ' ==> p[n] != ' '
  {
    hide Code, Pattern;
    SomePattern(p[..n]);
    assert n < |p| ==> p[n - 1] != ' ' || p[n] != ' ';
  }

  /** The characters of a word too long that fit, as many as do, never its last one. */
  method SomeCharacters(p: string, max: nat, dot: nat) returns (best: nat)
    requires p != "" && p[0] != ' ' && 0 < dot <= SLOWEST
    ensures 0 < best <= |p|
    ensures Sendable(p) && Roomy(max, dot) && |p| > 1 && p[1] != ' ' ==>
      Fits(p[..best], max, dot) && (best < |p| ==> p[best] != ' ')
    ensures |p| > 1 && p[1] != ' ' ==> best < |p| && forall i :: 0 <= i <= best ==> p[i] != ' '
    ensures Sendable(p) && Roomy(max, dot) && best + 1 < |p| && p[best] != ' ' && p[best + 1] != ' ' && best < PART - 1 ==>
      !Fits(p[..best + 1], max, dot)
  {
    hide Fits, Pattern, Roomy, Sendable, Code;
    best := 1;
    if Sendable(p) && Roomy(max, dot) {
      SendableFacts(p, 1, max, dot);
      OneFits(p, 1, max, dot);
    }
    while best < PART - 1 && best < |p| && p[best] != ' ' && best + 1 < |p| && p[best + 1] != ' '
      invariant 0 < best <= |p|
      invariant |p| > 1 && p[1] != ' ' ==> best < |p| && forall i :: 0 <= i <= best ==> p[i] != ' '
      invariant Sendable(p) && Roomy(max, dot) && |p| > 1 && p[1] != ' ' ==>
        Fits(p[..best], max, dot) && (best < |p| ==> p[best] != ' ')
      decreases |p| - best
    {
      var samples := CwSamples(p[..best + 1], dot, max);
      if Sendable(p) && Roomy(max, dot) {
        SendableFacts(p, best + 1, max, dot);
      }
      if samples > max {
        break;
      }
      best := best + 1;
    }
  }

  /** The text without the spaces before it. */
  function Trimmed(text: string): string {
    if text != "" && text[0] == ' ' then Trimmed(text[1..]) else text
  }

  /** A part p[..best] of what is left went out whole, and the next one starts with no space. */
  ghost predicate PartSent(text: string, signal: seq<bool>, rest: string, dot: nat) {
    var p := Trimmed(text);
    |rest| <= |p| &&
    var best := |p| - |rest|;
    && rest == p[best..] && (rest != "" ==> rest[0] != ' ')
    && signal == Stretched(Timeline(p[..best]), dot)
  }

  /** The next part of a text: its signal, and what is left. */
  method EncodePart(text: string, max: nat, dot: nat) returns (signal: seq<bool>, rest: string)
    requires 0 < dot <= SLOWEST
    ensures |signal| <= max
    ensures Trimmed(text) == "" ==> signal == [] && rest == ""
    ensures Trimmed(text) != "" ==> |rest| < |Trimmed(text)|
    ensures Sendable(text) && Roomy(max, dot) ==> PartSent(text, signal, rest, dot)
  {
    hide Fits, Pattern, Roomy, Sendable, Code, Stretched, Timeline, Keys, Held;
    var k := SkipSpaces(text, 0);
    var p := text[k..];
    TrimmedIs(text, k);
    if p == "" {
      NothingSent(dot);
      return [], p;
    }
    var best := WholeWords(p, max, dot);
    if best == 0 {
      best := SomeCharacters(p, max, dot);
    }
    ghost var pattern;
    signal, pattern := Encode(p[..best], max, dot);
    rest := p[best..];
    if Sendable(text) && Roomy(max, dot) {
      SendableRest(text, k);
      SendableFacts(p, best, max, dot);
      FitsExactly(p[..best], pattern, signal, max, dot);
    }
  }

  lemma {:induction false} TrimmedIs(text: string, k: nat)
    requires k <= |text| && (k < |text| ==> text[k] != ' ') && forall i :: 0 <= i < k ==> text[i] == ' '
    ensures Trimmed(text) == text[k..]
  {
    if k > 0 {
      TrimmedIs(text[1..], k - 1);
    }
  }

  lemma NothingSent(dot: nat)
    ensures Stretched(Timeline(""), dot) == []
  {
  }

  lemma SendableRest(text: string, k: nat)
    requires k <= |text| && Sendable(text)
    ensures Sendable(text[k..])
  {
    hide Code;
  }

  /** All parts of a message, one after the other: their keying is the keying of the message, exactly
      if it does not begin with a space. */
  method Parts(text: string, max: nat, dot: nat) returns (signal: seq<bool>)
    requires 0 < dot <= SLOWEST && Sendable(text) && Roomy(max, dot)
    ensures signal == Stretched(Timeline(Trimmed(text)), dot)
    ensures signal == Stretched(Timeline(text), dot) <==> (text == "" || text[0] != ' ')
  {
    hide Roomy, Sendable, Code, Stretched, Timeline, PartSent, Trimmed;
    SpacesLost(text, dot);
    signal := [];
    NothingSent(dot);
    ghost var whole := Trimmed(text);
    ghost var done := "";
    var rest := text;
    while true
      invariant Sendable(rest) && done + Trimmed(rest) == whole && signal == Stretched(Timeline(done), dot)
      decreases |Trimmed(rest)|
    {
      var s, next := EncodePart(rest, max, dot);
      ghost var p := Trimmed(rest);
      if |s| == 0 {
        NoneLeft(rest, s, next, max, dot);
        assert done + "" == done;
        return;
      }
      ghost var n := |p| - |next|;
      OnePart(rest, s, next, dot);
      TimelineConcat(done, p[..n]);
      StretchedConcat(Timeline(done), Timeline(p[..n]), dot);
      assert done + p[..n] + next == done + p;
      done := done + p[..n];
      signal := signal + s;
      rest := next;
    }
  }

  lemma SpacesLost(text: string, dot: nat)
    requires Sendable(text) && dot > 0
    ensures Stretched(Timeline(Trimmed(text)), dot) == Stretched(Timeline(text), dot) <==> (text == "" || text[0] != ' ')
  {
    hide Code, Timeline, Stretched;
    if text != "" && text[0] == ' ' {
      var k := SpacesBefore(text);
      assert text[..k] + text[k..] == text;
      TimelineConcat(text[..k], text[k..]);
      SentSomething(text[..k], dot);
      var a, b := |Timeline(text)|, |Timeline(text[k..])|;
      assert (a - b) * dot > 0;
    }
  }

  lemma OnePart(text: string, signal: seq<bool>, rest: string, dot: nat)
    requires Sendable(text) && PartSent(text, signal, rest, dot)
    ensures var p := Trimmed(text);
      && |rest| <= |p| && rest == p[|p| - |rest|..]
      && signal == Stretched(Timeline(p[..|p| - |rest|]), dot) && Trimmed(rest) == rest && Sendable(rest)
  {
    hide Code, Timeline, Stretched;
    var k := SpacesBefore(text);
    SendableRest(text, k);
    var p := Trimmed(text);
    SendableRest(p, |p| - |rest|);
  }

  lemma {:induction false} SpacesBefore(text: string) returns (k: nat)
    ensures k <= |text| && Trimmed(text) == text[k..] && (text != "" && text[0] == ' ' ==> k > 0)
  {
    k := 0;
    if text != "" && text[0] == ' ' {
      k := SpacesBefore(text[1..]);
      k := k + 1;
    }
  }

  /** A part with no samples is the end of the message. */
  lemma NoneLeft(text: string, signal: seq<bool>, rest: string, max: nat, dot: nat)
    requires Sendable(text) && Roomy(max, dot) && PartSent(text, signal, rest, dot) && signal == [] && dot > 0
    requires Trimmed(text) != "" ==> |rest| < |Trimmed(text)|
    ensures Trimmed(text) == ""
  {
    hide Code, Stretched, Sent;
    var p := Trimmed(text);
    if p != "" {
      var k := SpacesBefore(text);
      var n := |p| - |rest|;
      assert Code(p[n - 1]) != "" by { assert p[n - 1] == text[k + n - 1]; }
      SentSomething(p[..n], dot);
      Fewer(1, |Timeline(p[..n])|, dot);
    }
  }

  lemma SentSomething(text: string, dot: nat)
    requires text != "" && Code(text[|text| - 1]) != ""
    ensures |Timeline(text)| >= 1
  {
    hide Code;
  }
}
