/** The log of digital traffic: reading its last entries back from the ends of the two files, as if
    both had been read whole, and the ring of entries kept in memory. */
module DigiLog {
  import opened VoiceCrypto

  // ---- the entries of a file, read from its top

  function FirstNewline(s: string): (i: nat)
    ensures i <= |s| && (i < |s| ==> s[i] == '\n') && forall k :: 0 <= k < i ==> s[k] != '\n'
  {
    if s == "" || s[0] == '\n' then 0 else 1 + FirstNewline(s[1..])
  }

  /** A line without the carriage returns at its end. */
  function Stripped(l: string): string {
    if l != "" && l[|l| - 1] == '\r' then Stripped(l[..|l| - 1]) else l
  }

  predicate IsObject(l: string) {
    |l| > 1 && l[0] == '{' && l[|l| - 1] == '}'
  }

  /** The line as an entry, if it is a complete object. */
  function Entry(l: string): seq<string> {
    if IsObject(Stripped(l)) then [Stripped(l)] else []
  }

  /** The entries of a text in order: the lines that are complete objects. */
  function Entries(s: string): seq<string>
    decreases |s|
  {
    var i := FirstNewline(s);
    if i == |s| then Entry(s) else Entry(s[..i]) + Entries(s[i + 1..])
  }

  function Reversed(e: seq<string>): (r: seq<string>)
    ensures |r| == |e|
  {
    if e == [] then [] else Reversed(e[1..]) + [e[0]]
  }

  lemma {:induction false} ReversedConcat(a: seq<string>, b: seq<string>)
    ensures Reversed(a + b) == Reversed(b) + Reversed(a)
  {
    if a == [] {
      assert a + b == b;
    } else {
      ReversedConcat(a[1..], b);
      assert (a + b)[1..] == a[1..] + b;
    }
  }

  function FirstOf(n: nat, e: seq<string>): seq<string> {
    if n <= |e| then e[..n] else e
  }

  /** The text the reader returns for a list of entries. */
  function Joined(e: seq<string>): string {
    if e == [] then "" else if |e| == 1 then e[0] else Joined(e[..|e| - 1]) + "," + e[|e| - 1]
  }

  // ---- what the entries are, line by line

  /** The lines of a text, put together again. */
  function Unlines(lines: seq<string>): string {
    if lines == [] then "" else if |lines| == 1 then lines[0] else lines[0] + "\n" + Unlines(lines[1..])
  }

  /** e is the line l without the carriage returns at its end. */
  ghost predicate Bare(l: string, e: string) {
    && e <= l && (forall i :: |e| <= i < |l| ==> l[i] == '\r')
    && (e != "" ==> e[|e| - 1] != '\r')
  }

  predicate Braced(e: string) {
    |e| >= 2 && e[0] == '{' && e[|e| - 1] == '}'
  }

  /** What is shown of a line: itself without its carriage returns, if that begins and ends with braces. */
  ghost predicate ShownAs(l: string, e: seq<string>) {
    && |e| <= 1 && (e == [] ==> forall b :: Bare(l, b) ==> !Braced(b))
    && (|e| == 1 ==> Bare(l, e[0]) && Braced(e[0]))
  }

  /** What is shown of some lines, each in turn. */
  ghost predicate AllShownAs(lines: seq<string>, e: seq<string>) {
    if lines == [] then e == []
    else exists k :: 0 <= k <= |e| && ShownAs(lines[0], e[..k]) && AllShownAs(lines[1..], e[k..])
  }

  /** The entries of a text are what is shown of its lines. */
  lemma {:induction false} EntriesAre(s: string) returns (lines: seq<string>)
    ensures lines != [] && Unlines(lines) == s && forall i :: 0 <= i < |lines| ==> '\n' !in lines[i]
    ensures AllShownAs(lines, Entries(s))
    decreases |s|
  {
    hide ShownAs, Entry;
    var i := FirstNewline(s);
    if i == |s| {
      EntryShown(s);
      lines := [s];
      ShownFirst(s, Entry(s), [], []);
      assert Entry(s) + [] == Entry(s);
    } else {
      var l, rest := s[..i], s[i + 1..];
      EntryShown(l);
      var more := EntriesAre(rest);
      lines := [l] + more;
      assert lines[1..] == more && s == l + "\n" + rest;
      ShownFirst(l, Entry(l), more, Entries(rest));
    }
  }

  lemma ShownFirst(l: string, e: seq<string>, more: seq<string>, f: seq<string>)
    requires ShownAs(l, e) && AllShownAs(more, f)
    ensures AllShownAs([l] + more, e + f)
  {
    hide ShownAs;
    var k := |e|;
    assert ([l] + more)[0] == l && ([l] + more)[1..] == more && (e + f)[..k] == e && (e + f)[k..] == f;
  }

  lemma EntryShown(l: string)
    ensures ShownAs(l, Entry(l))
  {
    hide Stripped;
    BareIs(l);
    forall b | Bare(l, b)
      ensures b == Stripped(l)
    {
      OneBare(l, b, Stripped(l));
    }
  }

  lemma {:induction false} BareIs(l: string)
    ensures Bare(l, Stripped(l))
  {
    if l != "" && l[|l| - 1] == '\r' {
      BareIs(l[..|l| - 1]);
    }
  }

  lemma OneBare(l: string, a: string, b: string)
    requires Bare(l, a) && Bare(l, b)
    ensures a == b
  {
    assert b != "" ==> b[|b| - 1] == l[|b| - 1];
    assert a != "" ==> a[|a| - 1] == l[|a| - 1];
    assert |a| == |b|;
  }

  // ---- cutting a text at a newline

  lemma EntriesStep(s: string, i: nat)
    requires i < |s| && s[i] == '\n' && forall k :: 0 <= k < i ==> s[k] != '\n'
    ensures Entries(s) == Entry(s[..i]) + Entries(s[i + 1..])
  {
    hide Entry;
    NewlineAt(s, i);
  }

  lemma OneLine(l: string)
    requires forall k :: 0 <= k < |l| ==> l[k] != '\n'
    ensures Entries(l) == Entry(l)
  {
    hide Entry;
  }

  /** A newline cuts a text into two whose entries are its entries. */
  lemma {:induction false} EntriesCut(a: string, b: string)
    ensures Entries(a + "\n" + b) == Entries(a) + Entries(b)
    decreases |a|
  {
    hide Entry, Entries;
    var s := a + "\n" + b;
    var i := FirstNewline(a);
    hide FirstNewline;
    assert forall k :: 0 <= k < |a| ==> a[k] == s[k];
    EntriesStep(s, i);
    if i == |a| {
      assert s[..i] == a && s[i + 1..] == b;
      OneLine(a);
    } else {
      EntriesStep(a, i);
      EntriesCut(a[i + 1..], b);
      assert s[..i] == a[..i] && s[i + 1..] == a[i + 1..] + "\n" + b;
    }
  }

  lemma NewlineAt(a: string, i: nat)
    requires i < |a| && a[i] == '\n' && forall k :: 0 <= k < i ==> a[k] != '\n'
    ensures FirstNewline(a) == i
  {
  }

  /** Newlines and carriage returns at the end add no entry. */
  lemma EntriesTrim(a: string, c: char)
    requires c == '\n' || c == '\r'
    ensures Entries(a + [c]) == Entries(a)
  {
    if c == '\n' {
      EntriesCut(a, "");
      assert a + "\n" + "" == a + [c];
      assert Entries("") == [];
    } else {
      EntriesReturn(a);
    }
  }

  lemma {:induction false} EntriesReturn(a: string)
    ensures Entries(a + "\r") == Entries(a)
    decreases |a|
  {
    var s := a + "\r";
    var i := FirstNewline(a);
    assert FirstNewline(s) == if i < |a| then i else |s| by {
      if i < |a| {
        NewlineAt(s, i);
      }
    }
    if i == |a| {
      assert s[..|s| - 1] == a;
    } else {
      EntriesReturn(a[i + 1..]);
      assert s[..i] == a[..i] && s[i + 1..] == a[i + 1..] + "\r";
    }
  }

  /** The last line of a text, and what stands before it. */
  lemma EntriesLast(s: string, start: nat)
    requires start <= |s| && (start > 0 ==> s[start - 1] == '\n') && forall k :: start <= k < |s| ==> s[k] != '\n'
    ensures Entries(s) == Entries(s[..start]) + Entry(s[start..])
  {
    hide Entry, Entries;
    var l := s[start..];
    OneLine(l);
    if start == 0 {
      assert s == l && s[..0] == "";
      NoEntries();
    } else {
      var a := s[..start - 1];
      assert s == a + "\n" + l && s[..start] == a + "\n";
      EntriesCut(a, l);
      EntriesTrim(a, '\n');
    }
  }

  lemma NoEntries()
    ensures Entries("") == []
  {
  }

  // ---- reading from the end

  /** The list that the reader has put out so far, and its text. */
  ghost predicate Shows(out: string, e: seq<string>) {
    out == "[" + Joined(e) && forall i :: 0 <= i < |e| ==> |e[i]| > 1
  }

  lemma ShowsMore(out: string, e: seq<string>, l: string)
    requires Shows(out, e) && |l| > 1
    ensures |out| > 1 <==> e != []
    ensures Shows(out + (if |out| > 1 then "," else "") + l, e + [l])
  {
    if e != [] {
      LongJoined(e);
      assert (e + [l])[..|e|] == e;
    }
  }

  lemma {:induction false} LongJoined(e: seq<string>)
    requires e != [] && forall i :: 0 <= i < |e| ==> |e[i]| > 1
    ensures |Joined(e)| > 1
  {
    if |e| > 1 {
      LongJoined(e[..|e| - 1]);
    }
  }

  /** The entries of a text, newest first, up to a number wanted, appended to the output. */
  method TakeFromEnd(buf: string, want: nat, out0: string, ghost e0: seq<string>)
    returns (taken: nat, out: string)
    requires Shows(out0, e0)
    ensures taken == |FirstOf(want, Reversed(Entries(buf)))|
    ensures Shows(out, e0 + FirstOf(want, Reversed(Entries(buf))))
  {
    hide Entries, Entry, Shows, Reversed;
    taken, out := 0, out0;
    ghost var e: seq<string> := [];
    var end := |buf|;
    assert buf[..end] == buf && e0 + e == e0;
    while end > 0 && taken < want
      invariant end <= |buf| && taken == |e| <= want
      invariant Reversed(Entries(buf)) == e + Reversed(Entries(buf[..end]))
      invariant Shows(out, e0 + e)
      decreases end
    {
      end := SkipNewlines(buf, end);
      if end == 0 {
        break;
      }
      var start := LineStart(buf, end);
      var l := buf[start..end];
      LastEntry(buf[..end], start, l);
      ghost var rest := Reversed(Entries(buf[..start]));
      assert buf[..end][..start] == buf[..start];
      if IsObject(l) {
        ShowsMore(out, e0 + e, l);
        out := out + (if |out| > 1 then "," else "") + l;
        taken := taken + 1;
        assert e0 + e + [l] == e0 + (e + [l]) && e + ([l] + rest) == e + [l] + rest;
        e := e + [l];
      }
      end := start;
    }
    assert taken == want || Reversed(Entries(buf[..end])) == [] by {
      if end == 0 {
        assert buf[..0] == "";
        NothingLeft();
      }
    }
    assert e == FirstOf(want, Reversed(Entries(buf)));
  }

  method SkipNewlines(buf: string, end0: nat) returns (end: nat)
    requires end0 <= |buf|
    ensures end <= end0 && (end > 0 ==> buf[end - 1] != '\n' && buf[end - 1] != '\r')
    ensures Entries(buf[..end]) == Entries(buf[..end0])
  {
    hide Entries;
    end := end0;
    while end > 0 && (buf[end - 1] == '\n' || buf[end - 1] == '\r')
      invariant end <= end0 && Entries(buf[..end]) == Entries(buf[..end0])
    {
      assert buf[..end] == buf[..end - 1] + [buf[end - 1]];
      EntriesTrim(buf[..end - 1], buf[end - 1]);
      end := end - 1;
    }
  }

  method LineStart(buf: string, end: nat) returns (start: nat)
    requires end <= |buf|
    ensures start <= end && (start > 0 ==> buf[start - 1] == '\n') && forall k :: start <= k < end ==> buf[k] != '\n'
  {
    start := end;
    while start > 0 && buf[start - 1] != '\n'
      invariant start <= end && forall k :: start <= k < end ==> buf[k] != '\n'
    {
      start := start - 1;
    }
  }

  /** The last line is the newest entry, if it is one. */
  lemma LastEntry(s: string, start: nat, l: string)
    requires start <= |s| && (start > 0 ==> s[start - 1] == '\n') && (forall k :: start <= k < |s| ==> s[k] != '\n')
    requires s != "" && s[|s| - 1] != '\r' && s[|s| - 1] != '\n' && l == s[start..]
    ensures Reversed(Entries(s)) == (if IsObject(l) then [l] else []) + Reversed(Entries(s[..start]))
  {
    hide Entries, Entry, Reversed;
    EntriesLast(s, start);
    EntryOf(l);
    ReversedConcat(Entries(s[..start]), Entry(l));
    ShortReversed(Entry(l));
  }

  lemma EntryOf(l: string)
    requires l != "" && l[|l| - 1] != '\r'
    ensures Entry(l) == if IsObject(l) then [l] else []
  {
  }

  lemma ShortReversed(e: seq<string>)
    requires |e| <= 1
    ensures Reversed(e) == e
  {
    assert e != [] ==> e[1..] == [] && e == [e[0]];
  }

  lemma NothingLeft()
    ensures Reversed(Entries("")) == []
  {
  }

  // ---- the window that doubles

  const WINDOW := 65536

  /** A window that holds enough entries, or the whole file, gives what the whole file would. */
  lemma WindowEnough(file: string, pre: string, p: string, want: nat)
    requires file == pre + "\n" + p
    requires want <= |Entries(p)|
    ensures FirstOf(want, Reversed(Entries(p))) == FirstOf(want, Reversed(Entries(file)))
  {
    hide Entries, Reversed;
    EntriesCut(pre, p);
    ReversedConcat(Entries(pre), Entries(p));
  }

  /** What of a window is whole lines: after its first newline, unless the window is the file. */
  method WholeLines(file: string, win: nat) returns (p: string)
    requires 0 < win <= |file|
    ensures win == |file| ==> p == file
    ensures win < |file| ==>
      if '\n' in file[|file| - win..] then AfterNewline(file, |file| - win, p) else p == ""
  {
    var buf := file[|file| - win..];
    if win == |file| {
      return buf;
    }
    var i := FirstNewline(buf);
    if i == |buf| {
      return "";
    }
    p := buf[i + 1..];
    ghost var pre := file[..|file| - win + i];
    assert file == pre + "\n" + p;
    assert pre[|file| - win..] == buf[..i];
  }

  /** p is what follows the first newline in the file from a position on. */
  ghost predicate AfterNewline(file: string, from: nat, p: string) {
    exists pre: string :: from <= |pre| && '\n' !in pre[from..] && file == pre + "\n" + p
  }

  /** The newest entries of a file, reading no more of its end than that takes. */
  method TakeTail(file: Option<string>, want: nat, out0: string, ghost e0: seq<string>) returns (taken: nat, out: string)
    requires Shows(out0, e0)
    ensures file.None? ==> taken == 0 && out == out0
    ensures file.Some? ==>
      && taken == |FirstOf(want, Reversed(Entries(file.value)))|
      && Shows(out, e0 + FirstOf(want, Reversed(Entries(file.value))))
  {
    hide Entries, Reversed, Shows;
    if file.None? {
      return 0, out0;
    }
    var s := file.value;
    if want == 0 || |s| == 0 {
      NothingLeft();
      assert s == "" || want == 0;
      assert e0 + [] == e0;
      return 0, out0;
    }
    var win := WINDOW;
    while true
      invariant win > 0
      decreases if win >= |s| then 0 else |s| - win + 1
    {
      if win > |s| {
        win := |s|;
      }
      var p := WholeLines(s, win);
      assert win < |s| && p != "" ==> exists pre :: s == pre + "\n" + p;
      taken, out := TakeFromEnd(p, want, out0, e0);
      if taken >= want || win == |s| {
        if win < |s| {
          Took(s, p, want);
        }
        return;
      }
      win := win * 2;
    }
  }

  lemma Took(file: string, p: string, want: nat)
    requires want > 0 && (p == "" || exists pre :: file == pre + "\n" + p)
    requires |FirstOf(want, Reversed(Entries(p)))| >= want
    ensures FirstOf(want, Reversed(Entries(p))) == FirstOf(want, Reversed(Entries(file)))
  {
    hide Entries, Reversed;
    NothingLeft();
    var pre :| file == pre + "\n" + p;
    WindowEnough(file, pre, p, want);
  }

  const MOST := 1000

  function Clamped(count: int): nat {
    if count < 1 then 1 else if count > MOST then MOST else count
  }

  function EntriesOf(file: Option<string>): seq<string> {
    if file.None? then [] else Entries(file.value)
  }

  /** The last entries of the two files, the older one first, newest first, as a JSON array. */
  method LastJson(count: int, cur: Option<string>, prev: Option<string>) returns (json: string)
    ensures var n := if count < 1 then 1 else if count > 1000 then 1000 else count;
      json == "[" + Joined(FirstOf(n, Reversed(EntriesOf(prev) + EntriesOf(cur)))) + "]"
  {
    hide Entries, Reversed, Shows, FirstOf, Joined;
    var n := Clamped(count);
    ghost var c, q := Reversed(EntriesOf(cur)), Reversed(EntriesOf(prev));
    ReversedConcat(EntriesOf(prev), EntriesOf(cur));
    NoneReversed();
    NoneShown();
    var out := "[";
    var taken;
    taken, out := TakeTail(cur, n, out, []);
    assert [] + FirstOf(n, c) == FirstOf(n, c);
    FirstOfBoth(n, c, q);
    if taken < n {
      var more;
      more, out := TakeTail(prev, n - taken, out, c);
      assert c + [] == c;
    }
    ShownText(out, FirstOf(n, c + q));
    json := out + "]";
  }

  lemma NoneShown()
    ensures Shows("[", [])
    ensures forall n: nat :: FirstOf(n, []) == []
  {
  }

  lemma ShownText(out: string, e: seq<string>)
    requires Shows(out, e)
    ensures out == "[" + Joined(e)
  {
  }

  /** The first n of two lists one after the other. */
  lemma FirstOfBoth(n: nat, c: seq<string>, q: seq<string>)
    ensures |FirstOf(n, c)| <= n
    ensures |FirstOf(n, c)| == n ==> FirstOf(n, c + q) == FirstOf(n, c)
    ensures |FirstOf(n, c)| < n ==> FirstOf(n, c) == c && FirstOf(n, c + q) == c + FirstOf(n - |c|, q)
  {
  }

  lemma NoneReversed()
    ensures Reversed([]) == []
  {
  }

  // ---- the entries in memory

  const RING := 64

  datatype Logged = Logged(id: nat, json: string)

  predicate Increasing(l: seq<Logged>) {
    forall i, j :: 0 <= i < j < |l| ==> l[i].id < l[j].id
  }

  predicate UpTo(l: seq<Logged>, id: nat) {
    forall i :: 0 <= i < |l| ==> l[i].id <= id
  }

  lemma IncreasingMore(l: seq<Logged>, last: nat, e: Logged)
    requires Increasing(l) && UpTo(l, last) && e.id > last
    ensures Increasing(l + [e]) && UpTo(l + [e], e.id)
  {
  }

  /** The entries after a given one, in order. */
  function Since(l: seq<Logged>, after: nat): seq<Logged> {
    if l == [] then [] else Since(l[..|l| - 1], after) + if l[|l| - 1].id > after then [l[|l| - 1]] else []
  }

  /** The ring holds the last count entries, each in its place. */
  ghost predicate Kept(ring: seq<Logged>, all: seq<Logged>, count: nat) {
    && |ring| == RING && count <= RING && count <= |all|
    && forall k :: |all| - count <= k < |all| ==> ring[k % RING] == all[k]
  }

  class Log {
    var ring: array<Logged>
    var next: nat
    var count: nat
    var lastId: nat

    ghost var all: seq<Logged>        // every entry logged

    ghost predicate Valid()
      reads this, ring
    {
      && ring.Length == RING && next < RING && count == (if |all| < RING then |all| else RING)
      && next == |all| % RING && Kept(ring[..], all, count)
      && Increasing(all) && UpTo(all, lastId)
    }

    constructor (seed: nat)
      ensures Valid() && all == [] && lastId == seed && fresh(ring)
    {
      ring := new Logged[RING](_ => Logged(0, ""));
      next, count, lastId, all := 0, 0, seed, [];
    }

    /** Log an entry at a time in microseconds; its id is that time, or the next one free. */
    method Add(now: nat, json: string) returns (id: nat)
      requires Valid()
      modifies this, ring
      ensures Valid() && ring == old(ring)
      ensures id > old(lastId) && id >= now && (now > old(lastId) ==> id == now) && lastId == id
      ensures all == old(all) + [Logged(id, json)]
    {
      hide Kept, Increasing, UpTo;
      ghost var was, before, have := ring[..], all, count;
      id := if now <= lastId then lastId + 1 else now;
      IncreasingMore(all, lastId, Logged(id, json));
      lastId := id;
      ring[next] := Logged(id, json);
      ghost var n := |all|;
      all := all + [Logged(id, json)];
      next := (next + 1) % RING;
      if count < RING {
        count := count + 1;
      }
      assert ring[..] == was[n % RING := Logged(id, json)];
      KeptMore(was, before, have, Logged(id, json));
    }

    /** The entries kept that came after a given id, oldest first, as many as there is room for. */
    method ReadSince(after: nat, max: nat) returns (out: seq<Logged>)
      requires Valid()
      ensures var l := Since(all[|all| - count..], after); out == if |l| <= max then l else l[..max]
    {
      hide Kept, Increasing, Since, UpTo;
      var first := (next + RING - count) % RING;
      ghost var kept, l := all[|all| - count..], Since(all[|all| - count..], after);
      out := [];
      NoneSince(after);
      assert kept[..0] == [];
      var k := 0;
      while k < count && |out| < max
        invariant k <= count && |out| <= max && out == Since(kept[..k], after)
      {
        var e := Nth(first, k);
        SinceNext(kept, after, k);
        if e.id > after {
          out := out + [e];
        }
        k := k + 1;
      }
      assert kept[..count] == kept;
      SinceGrows(kept, after, k);
      assert out <= l && (k == count ==> out == l);
    }

    /** The entry k places after the oldest one kept, at place first. */
    method Nth(first: nat, k: nat) returns (e: Logged)
      requires Valid() && k < count && first == (next + RING - count) % RING
      ensures e == all[|all| - count..][k]
    {
      hide Kept, Increasing, UpTo;
      KeptAt(ring[..], all, count, first, k);
      e := ring[(first + k) % RING];
    }
  }

  lemma NoneSince(after: nat)
    ensures Since([], after) == []
  {
  }

  lemma SinceNext(l: seq<Logged>, after: nat, k: nat)
    requires k < |l|
    ensures Since(l[..k + 1], after) == Since(l[..k], after) + if l[k].id > after then [l[k]] else []
  {
    assert l[..k + 1][..k] == l[..k];
  }

  lemma KeptMore(ring: seq<Logged>, all: seq<Logged>, count: nat, e: Logged)
    requires Kept(ring, all, count)
    requires count == (if |all| < RING then |all| else RING)
    ensures Kept(ring[|all| % RING := e], all + [e], if count < RING then count + 1 else count)
  {
    var n := |all|;
    forall k | n - RING < k < n && 0 <= k
      ensures k % RING != n % RING
    {
      Elsewhere(k, n);
    }
  }

  /** The entry k places after the oldest one kept. */
  lemma KeptAt(ring: seq<Logged>, all: seq<Logged>, count: nat, first: nat, k: nat)
    requires Kept(ring, all, count) && k < count && first == (|all| % RING + RING - count) % RING
    ensures |ring| == RING && ring[(first + k) % RING] == all[|all| - count + k]
  {
    PlaceOf(|all|, count, k);
  }

  lemma Elsewhere(k: nat, n: nat)
    requires k < n < k + RING
    ensures k % RING != n % RING
  {
  }

  lemma PlaceOf(n: nat, count: nat, k: nat)
    requires count <= n && count <= RING && k < count
    ensures ((n % RING + RING - count) % RING + k) % RING == (n - count + k) % RING
  {
  }

  lemma {:induction false} SinceGrows(l: seq<Logged>, after: nat, k: nat)
    requires k <= |l|
    ensures Since(l[..k], after) <= Since(l, after)
  {
    if k < |l| {
      SinceGrows(l[..|l| - 1], after, k);
      assert l[..|l| - 1][..k] == l[..k];
    } else {
      assert l[..k] == l;
    }
  }

  /** A reader that asks again from the last entry it has misses none and gets none twice, while
      no more than a ring of entries came in between. */
  lemma NothingMissed(all: seq<Logged>, k: nat, count: nat)
    requires Increasing(all) && k < |all| && count == (if |all| < RING then |all| else RING) && |all| - k - 1 <= RING
    ensures Since(all[|all| - count..], all[k].id) == all[k + 1..]
  {
    var kept := all[|all| - count..];
    var m := k + 1 - (|all| - count);
    if m >= 0 {
      assert kept == kept[..m] + kept[m..] && kept[m..] == all[k + 1..];
      SinceSplit(kept, all[k].id, m);
    }
  }

  /** The first m entries are not after the id, the others are. */
  lemma {:induction false} SinceSplit(l: seq<Logged>, after: nat, m: nat)
    requires m <= |l| && (forall i :: 0 <= i < m ==> l[i].id <= after) && (forall i :: m <= i < |l| ==> l[i].id > after)
    ensures Since(l, after) == l[m..]
  {
    if l != [] {
      var n := |l| - 1;
      if m <= n {
        SinceSplit(l[..n], after, m);
        assert l[..n][m..] + [l[n]] == l[m..];
      } else {
        SinceSplit(l[..n], after, n);
      }
    }
  }
}
