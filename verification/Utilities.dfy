/** utilities.cpp: strtok-style tokenizing, number recognition and message formatting. */
module Utilities {
  import opened Text

  /** Length of the longest prefix of `s` without the delimiter. */
  function Stretch(s: string, d: char): (n: nat)
    ensures n <= |s| && d !in s[..n]
    ensures n < |s| ==> s[n] == d
  {
    if s == "" || s[0] == d then 0 else 1 + Stretch(s[1..], d)
  }

  /** The tokens strtok_r produces: the maximal delimiter-free pieces of `s`, in order. */
  function Tokens(s: string, d: char): (ts: seq<string>)
    ensures forall t :: t in ts ==> t != "" && d !in t
    decreases |s|
  {
    if s == "" then []
    else if s[0] == d then Tokens(s[1..], d)
    else
      var n := Stretch(s, d);
      [s[..n]] + Tokens(s[n..], d)
  }

  /** One strtok_r call after another over a private copy of the string. */
  method Tokenize(str: string, d: char) returns (tokens: seq<string>)
    ensures tokens == Tokens(str, d)
  {
    tokens := [];
    var save := 0;
    while save < |str|
      invariant save <= |str|
      invariant Tokens(str, d) == tokens + Tokens(str[save..], d)
    {
      if str[save] == d {
        assert str[save..][1..] == str[save + 1..];
        save := save + 1;
      } else {
        var start := save;
        while save < |str| && str[save] != d
          invariant start <= save <= |str|
          invariant forall i :: start <= i < save ==> str[i] != d
        {
          save := save + 1;
        }
        NextToken(str, d, start, save);
        tokens := tokens + [str[start..save]];
      }
    }
    assert Tokens(str[save..], d) == [];
  }

  lemma NextToken(str: string, d: char, start: nat, end: nat)
    requires start < end <= |str| && (forall i :: start <= i < end ==> str[i] != d) && (end < |str| ==> str[end] == d)
    ensures Tokens(str[start..], d) == [str[start..end]] + Tokens(str[end..], d)
  {
    StretchIs(str[start..], d, end - start);
    assert str[start..][..end - start] == str[start..end];
    assert str[start..][end - start..] == str[end..];
  }

  lemma {:induction false} StretchIs(s: string, d: char, n: nat)
    requires n <= |s| && (forall i :: 0 <= i < n ==> s[i] != d) && (n < |s| ==> s[n] == d)
    ensures Stretch(s, d) == n
  {
    if n > 0 {
      StretchIs(s[1..], d, n - 1);
    }
  }

  /** A delimiter splits the work: the tokens on its left are followed by the tokens on its right. */
  lemma {:induction false} TokensSplit(a: string, d: char, b: string)
    ensures Tokens(a + [d] + b, d) == Tokens(a, d) + Tokens(b, d)
    decreases |a|
  {
    var s := a + [d] + b;
    if a == "" {
      assert s[1..] == b;
    } else if a[0] == d {
      CutInFront(a, d, b, 1);
      TokensSplit(a[1..], d, b);
    } else {
      var n := Stretch(a, d);
      CutInFront(a, d, b, n);
      forall i | 0 <= i < n ensures s[i] != d {
        assert a[..n][i] == a[i];
      }
      StretchIs(s, d, n);
      TokensSplit(a[n..], d, b);
    }
  }

  lemma CutInFront(a: string, d: char, b: string, n: nat)
    requires n <= |a|
    ensures (a + [d] + b)[..n] == a[..n] && (a + [d] + b)[n..] == a[n..] + [d] + b
  {
  }

  /** A non-empty string without delimiters is its own only token. */
  lemma TokensOfWord(w: string, d: char)
    requires w != "" && d !in w
    ensures Tokens(w, d) == [w]
  {
    StretchIs(w, d, |w|);
    assert w[..|w|] == w && w[|w|..] == "";
  }

  function Join(ts: seq<string>, d: char): string {
    if ts == [] then "" else if |ts| == 1 then ts[0] else ts[0] + [d] + Join(ts[1..], d)
  }

  /** Tokenizing inverts joining. */
  lemma {:induction false} TokensOfJoin(ts: seq<string>, d: char)
    requires forall i :: 0 <= i < |ts| ==> ts[i] != "" && d !in ts[i]
    ensures Tokens(Join(ts, d), d) == ts
  {
    if ts != [] {
      TokensOfWord(ts[0], d);
      if |ts| > 1 {
        TokensSplit(ts[0], d, Join(ts[1..], d));
        TokensOfJoin(ts[1..], d);
        assert ts == [ts[0]] + ts[1..];
      }
    }
  }

  function Without(s: string, d: char): (r: string)
    ensures |r| <= |s|
    ensures |r| == |s| <==> d !in s
  {
    if s == "" then "" else (if s[0] == d then "" else [s[0]]) + Without(s[1..], d)
  }

  lemma {:induction false} WithoutConcat(a: string, b: string, d: char)
    ensures Without(a + b, d) == Without(a, d) + Without(b, d)
  {
    if a == "" {
      assert a + b == b;
    } else {
      assert (a + b)[1..] == a[1..] + b;
      WithoutConcat(a[1..], b, d);
    }
  }

  lemma {:induction false} WithoutNothing(s: string, d: char)
    requires d !in s
    ensures Without(s, d) == s
  {
    if s != "" {
      assert s == [s[0]] + s[1..];
      WithoutNothing(s[1..], d);
    }
  }

  /** Nothing but delimiters is lost and nothing is reordered. */
  lemma {:induction false} TokensKeepText(s: string, d: char)
    ensures Concat(Tokens(s, d)) == Without(s, d)
    decreases |s|
  {
    if s == "" {
    } else if s[0] == d {
      TokensKeepText(s[1..], d);
    } else {
      var n := Stretch(s, d);
      assert s == s[..n] + s[n..];
      TokensKeepText(s[n..], d);
      WithoutConcat(s[..n], s[n..], d);
      WithoutNothing(s[..n], d);
      assert ([s[..n]] + Tokens(s[n..], d))[1..] == Tokens(s[n..], d);
    }
  }

  lemma {:induction false} TokensOfBlank(s: string, d: char)
    requires forall i :: 0 <= i < |s| ==> s[i] == d
    ensures Tokens(s, d) == []
  {
    if s != "" {
      TokensOfBlank(s[1..], d);
    }
  }

  /** Cutting a tail off leaves the tokens alone exactly when the tail is nothing but delimiters. */
  lemma TokensOfPrefix(p: string, q: string, d: char)
    ensures Tokens(p + q, d) == Tokens(p, d) <==> forall i :: 0 <= i < |q| ==> q[i] == d
  {
    if forall i :: 0 <= i < |q| ==> q[i] == d {
      if q == "" {
        assert p + q == p;
      } else {
        assert p + q == p + [d] + q[1..];
        TokensSplit(p, d, q[1..]);
        TokensOfBlank(q[1..], d);
      }
    } else {
      TokensKeepText(p + q, d);
      TokensKeepText(p, d);
      WithoutConcat(p, q, d);
      NonBlankRemains(q, d);
      assert |Without(p + q, d)| > |Without(p, d)|;
    }
  }

  lemma {:induction false} NonBlankRemains(q: string, d: char)
    requires exists i :: 0 <= i < |q| && q[i] != d
    ensures Without(q, d) != ""
  {
    if q[0] == d {
      var i :| 0 <= i < |q| && q[i] != d;
      assert q[1..][i - 1] != d;
      NonBlankRemains(q[1..], d);
    }
  }

  /** The same tokens, but there may be fewer of them and the last may have been cut short. */
  predicate CutShort(few: seq<string>, all: seq<string>) {
    && |few| <= |all|
    && (forall i :: 0 <= i < |few| - 1 ==> few[i] == all[i])
    && (few != [] ==> few[|few| - 1] <= all[|few| - 1])
  }

  /** What cutting a tail off can do to the tokens. */
  lemma {:induction false} TokensOfCut(p: string, q: string, d: char)
    ensures CutShort(Tokens(p, d), Tokens(p + q, d))
    decreases |p|
  {
    if p == "" {
    } else if p[0] == d {
      assert (p + q)[1..] == p[1..] + q;
      TokensOfCut(p[1..], q, d);
    } else {
      var n := Stretch(p, d);
      if n < |p| {
        assert forall i :: 0 <= i < n ==> (p + q)[i] == p[..n][i];
        StretchIs(p + q, d, n);
        assert (p + q)[..n] == p[..n] && (p + q)[n..] == p[n..] + q;
        TokensOfCut(p[n..], q, d);
        OneMoreToken(p[..n], Tokens(p[n..], d), Tokens(p[n..] + q, d));
      } else {
        CutWord(p, q, d);
      }
    }
  }

  lemma OneMoreToken(t: string, few: seq<string>, all: seq<string>)
    requires CutShort(few, all)
    ensures CutShort([t] + few, [t] + all)
  {
  }

  /** A cut inside the first token. */
  lemma CutWord(p: string, q: string, d: char)
    requires p != "" && d !in p
    ensures CutShort(Tokens(p, d), Tokens(p + q, d))
  {
    var m := Stretch(p + q, d);
    StretchCovers(p, q, d);
    TokensOfWord(p, d);
    assert p <= (p + q)[..m];
  }

  lemma {:induction false} StretchCovers(p: string, q: string, d: char)
    requires d !in p
    ensures Stretch(p + q, d) >= |p|
  {
    if p != "" {
      assert (p + q)[1..] == p[1..] + q;
      StretchCovers(p[1..], q, d);
    }
  }

  /** How many delimiters come first. */
  function Blanks(s: string, d: char): (n: nat)
    ensures n <= |s| && (n < |s| ==> s[n] != d)
    ensures forall i :: 0 <= i < n ==> s[i] == d
  {
    if s == "" || s[0] != d then 0 else 1 + Blanks(s[1..], d)
  }

  /** `Tokens` by its first token, which ends at `w`. */
  predicate FirstTokenAt(s: string, d: char, a: nat, w: nat) {
    && a <= w <= |s|
    && (a == |s| ==> Tokens(s, d) == [])
    && (a < |s| ==> w > a && Tokens(s, d) == [s[a..w]] + Tokens(s[w..], d))
  }

  /** The first token, if there is one, and the others behind it. */
  lemma {:induction false} TokensStep(s: string, d: char) returns (a: nat, w: nat)
    ensures a == Blanks(s, d) && w == a + Stretch(s[a..], d) && FirstTokenAt(s, d, a, w)
  {
    hide Tokens, Stretch, FirstTokenAt;
    if s == "" {
      a, w := 0, 0;
      EmptyStep(d);
    } else if s[0] == d {
      TokensSkip(s, d);
      a, w := TokensStep(s[1..], d);
      a, w := a + 1, w + 1;
      Behind(s, a, a);
      TokensStepLater(s, d, a, w);
    } else {
      a, w := 0, Stretch(s, d);
      TokensStepNow(s, d);
      assert s[0..] == s;
    }
  }

  lemma EmptyStep(d: char)
    ensures Blanks("", d) == 0 && Stretch("", d) == 0 && FirstTokenAt("", d, 0, 0)
  {
  }

  lemma TokensStepLater(s: string, d: char, a: nat, w: nat)
    requires s != "" && s[0] == d && 1 <= a <= w && FirstTokenAt(s[1..], d, a - 1, w - 1)
    ensures FirstTokenAt(s, d, a, w)
  {
    hide Tokens;
    TokensSkip(s, d);
    Behind(s, a, w);
  }

  lemma TokensStepNow(s: string, d: char)
    requires s != "" && s[0] != d
    ensures Blanks(s, d) == 0 && FirstTokenAt(s, d, 0, Stretch(s, d))
  {
  }

  lemma TokensSkip(s: string, d: char)
    requires s != "" && s[0] == d
    ensures Tokens(s, d) == Tokens(s[1..], d) && Blanks(s, d) == 1 + Blanks(s[1..], d)
  {
  }

  lemma Behind(s: string, i: nat, j: nat)
    requires 1 <= i <= j <= |s|
    ensures s[1..][i - 1..j - 1] == s[i..j] && s[1..][j - 1..] == s[j..]
  {
  }

  lemma {:induction false} BlanksAre(s: string, d: char, n: nat)
    requires n <= |s| && (forall i :: 0 <= i < n ==> s[i] == d) && (n < |s| ==> s[n] != d)
    ensures Blanks(s, d) == n
  {
    if n > 0 {
      BlanksAre(s[1..], d, n - 1);
    }
  }

  /** Where the second token begins. */
  function SecondToken(s: string, d: char): (n: nat)
    ensures n <= |s|
  {
    var a := Blanks(s, d);
    var w := a + Stretch(s[a..], d);
    w + Blanks(s[w..], d)
  }

  predicate AllAre(s: string, d: char, from: nat, to: nat) {
    forall i :: from <= i < to && i < |s| ==> s[i] == d
  }

  predicate NoneIs(s: string, d: char, from: nat, to: nat) {
    forall i :: from <= i < to && i < |s| ==> s[i] != d
  }

  /** A first token between two indices. */
  lemma WordAt(s: string, d: char, a: nat, w: nat)
    requires a < w <= |s| && AllAre(s, d, 0, a) && NoneIs(s, d, a, w) && (w < |s| ==> s[w] == d)
    ensures Tokens(s, d) == [s[a..w]] + Tokens(s[w..], d)
  {
    hide Tokens;
    BlanksAre(s, d, a);
    StretchIs(s[a..], d, w - a);
    var start, end := TokensStep(s, d);
  }

  /** A string of at most two tokens, seen by its indices. */
  predicate TwoWords(s: string, d: char, a: nat, w: nat, st: nat, e: nat) {
    && a <= w <= st <= e <= |s| && (st < e ==> a < w < st)
    && AllAre(s, d, 0, a) && NoneIs(s, d, a, w) && AllAre(s, d, w, st) && NoneIs(s, d, st, e) && AllAre(s, d, e, |s|)
    && (a == w ==> a == |s|)
  }

  lemma TokensByIndex(s: string, d: char, a: nat, w: nat, st: nat, e: nat)
    requires TwoWords(s, d, a, w, st, e)
    ensures Tokens(s, d) == if st < e then [s[a..w], s[st..e]] else if a < w then [s[a..w]] else []
  {
    hide Tokens;
    if a == w {
      TokensOfBlank(s, d);
    } else {
      WordAt(s, d, a, w);
      if st < e {
        SecondByIndex(s, d, w, st, e);
      } else {
        TokensOfBlank(s[w..], d);
      }
    }
  }

  lemma SecondByIndex(s: string, d: char, w: nat, st: nat, e: nat)
    requires w <= st < e <= |s| && AllAre(s, d, w, st) && NoneIs(s, d, st, e) && AllAre(s, d, e, |s|)
    ensures Tokens(s[w..], d) == [s[st..e]]
  {
    hide Tokens;
    var b := s[w..];
    WordAt(b, d, st - w, e - w);
    assert b[st - w..e - w] == s[st..e];
    TokensOfBlank(b[e - w..], d);
  }

  /** The two tokens of a string that has two, in their places. */
  lemma TwoTokens(s: string, d: char) returns (a: nat, w: nat, e: nat)
    requires |Tokens(s, d)| == 2
    ensures var st := SecondToken(s, d); st < e && TwoWords(s, d, a, w, st, e) && Tokens(s, d) == [s[a..w], s[st..e]]
  {
    hide Tokens, AllAre, NoneIs, Stretch, Blanks;
    a, w := TokensStep(s, d);
    assert s[0..] == s;
    BlanksIn(s, d, 0);
    StretchIn(s, d, a);
    var g := SecondWord(s, d, w);
    var st := SecondToken(s, d);
    BlanksIn(s, d, w);
    e := st + Stretch(s[st..], d);
    StretchIn(s, d, st);
    StretchPositive(s, d, st);
    TokensByIndex(s, d, a, w, st, e);
  }

  lemma StretchPositive(s: string, d: char, a: nat)
    requires a < |s| && s[a] != d
    ensures Stretch(s[a..], d) > 0
  {
  }

  lemma BlanksIn(s: string, d: char, w: nat)
    requires w <= |s|
    ensures AllAre(s, d, w, w + Blanks(s[w..], d))
  {
    forall i | w <= i < w + Blanks(s[w..], d) ensures s[i] == d {
      assert s[i] == s[w..][i - w];
    }
  }

  lemma StretchIn(s: string, d: char, a: nat)
    requires a <= |s|
    ensures var w := a + Stretch(s[a..], d); w <= |s| && NoneIs(s, d, a, w) && (w < |s| ==> s[w] == d)
  {
    var n := Stretch(s[a..], d);
    forall i | a <= i < a + n ensures s[i] != d {
      assert s[i] == s[a..][..n][i - a];
    }
  }

  lemma SecondWord(s: string, d: char, w: nat) returns (g: nat)
    requires w <= |s| && |Tokens(s[w..], d)| == 1 && (w < |s| ==> s[w] == d)
    ensures g == Blanks(s[w..], d) > 0 && w + g < |s| && AllAre(s, d, w, w + g) && s[w + g] != d
    ensures AllAre(s, d, w + g + Stretch(s[w + g..], d), |s|)
  {
    hide Tokens, Blanks, Stretch;
    var b := s[w..];
    g := Blanks(b, d);
    var start, end := TokensStep(b, d);
    forall i | w <= i < w + g ensures s[i] == d {
      assert s[i] == b[i - w];
    }
    var n := g + Stretch(b[g..], d);
    assert b[g..] == s[w + g..];
    NoTokens(b[n..], d);
    forall i | w + n <= i < |s| ensures s[i] == d {
      assert s[i] == b[n..][i - w - n];
    }
  }

  lemma NoTokens(s: string, d: char)
    requires Tokens(s, d) == []
    ensures forall i :: 0 <= i < |s| ==> s[i] == d
  {
    var start, end := TokensStep(s, d);
  }

  function Least(m: nat, n: nat): nat {
    if m <= n then m else n
  }

  lemma SubOfPrefix(s: string, m: nat, i: nat, j: nat)
    requires i <= j <= |s| && i <= m <= |s|
    ensures s[..m][i..Least(j, m)] == s[i..j][..Least(j - i, m - i)]
  {
    var l, r := s[..m][i..Least(j, m)], s[i..j][..Least(j - i, m - i)];
    assert |l| == |r|;
    forall t | 0 <= t < |l| ensures l[t] == r[t] {
      assert l[t] == s[i + t] == r[t];
    }
  }

  /** What is left of the two tokens when only the first `m` characters are. */
  lemma TokensOfFirst(s: string, d: char, m: nat)
    requires |Tokens(s, d)| == 2 && m <= |s|
    ensures var ts, st := Tokens(s, d), SecondToken(s, d);
            if m <= st then |Tokens(s[..m], d)| <= 1
            else Tokens(s[..m], d) == [ts[0], ts[1][..Least(|ts[1]|, m - st)]]
  {
    hide Tokens, SecondToken;
    var a, w, e := TwoTokens(s, d);
    var st := SecondToken(s, d);
    TokensByIndex(s[..m], d, Least(a, m), Least(w, m), Least(st, m), Least(e, m));
    if m > st {
      assert s[..m][a..w] == s[a..w];
      SubOfPrefix(s, m, st, e);
    }
  }

  /** std::isdigit over the whole string, which must not be empty. */
  method IsNumber(s: string) returns (b: bool)
    ensures b <==> s != "" && AllDigits(s)
  {
    var it := 0;
    while it < |s| && IsDigit(s[it])
      invariant it <= |s|
      invariant forall i :: 0 <= i < it ==> IsDigit(s[i])
    {
      it := it + 1;
    }
    b := s != "" && it == |s|;
  }

  /** std::string::find, as far as its callers ask: whether the pattern occurs. */
  method ContainsText(s: string, pattern: string) returns (found: bool)
    ensures found == Contains(s, pattern)
  {
    found := false;
    var i := 0;
    while i <= |s| && !found
      invariant i <= |s| + 1
      invariant found ==> Contains(s, pattern)
      invariant !found ==> forall j :: 0 <= j < i ==> !OccursAt(s, pattern, j)
      decreases |s| + 1 - i, if found then 0 else 1
    {
      if OccursAt(s, pattern, i) {
        found := true;
      } else {
        i := i + 1;
      }
    }
  }

  /** createMessage: "code text info", optionally newline-terminated, in a 255-byte buffer. */
  function CreateMessage(code: string, text: string, info: string, newline: bool): string {
    Snprintf(255, code + " " + text + " " + info + (if newline then "\n" else ""))
  }

  /** The bytes sendMessageToSocket sends. */
  function SocketMessage(code: string, text: string, info: string): string {
    CreateMessage(code, text, info, true)
  }

  /** A success report carries no "ERROR", whatever number it names. */
  lemma WroteIsNoError(number: int, newline: bool)
    ensures !Contains(CreateMessage("3.0", "WROTE", FormatInt(number), newline), "ERROR")
    ensures CreateMessage("3.0", "WROTE", FormatInt(number), newline) != ""
  {
    var full := "3.0" + " " + "WROTE" + " " + FormatInt(number) + (if newline then "\n" else "");
    assert full[..10] == "3.0 WROTE ";
    var m := Snprintf(255, full);
    forall i | 0 <= i <= |m| ensures !OccursAt(m, "ERROR", i) {
      if i + 5 <= |m| {
        var window := m[i..i + 5];
        assert window[0] == full[i] && window[1] == full[i + 1];
        if i < 9 {
          assert full[i] == full[..10][i] && full[i + 1] == full[..10][i + 1];
        } else if i > 9 {
          assert full[i] in FormatInt(number);
        }
        assert window[0] != 'E' || window[1] != 'R';
      }
    }
  }

  /** A failure report is recognised by its "ERROR". */
  lemma FailureIsError(info: string, newline: bool)
    ensures Contains(CreateMessage("3.2", "ERROR WRITE", info, newline), "ERROR")
    ensures CreateMessage("3.2", "ERROR WRITE", info, newline) != ""
  {
    var m := CreateMessage("3.2", "ERROR WRITE", info, newline);
    var full := "3.2" + " " + "ERROR WRITE" + " " + info + (if newline then "\n" else "");
    assert full[..9] == "3.2 ERROR";
    assert m[4..9] == full[..9][4..9] == "ERROR";
    assert OccursAt(m, "ERROR", 4);
  }
}
