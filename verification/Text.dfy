/**
 String operations of the host language that the gateway relies on: `split`, `join`,
 `replace` (first occurrence), `toLowerCase` on ASCII, `trim`, and the file name after the
 last slash.
 */
module Text {

  // ----- split and join -----

  /** `s.split(sep)`: the pieces between successive, non-overlapping separators. */
  function Split(s: string, sep: string): (parts: seq<string>)
    requires sep != ""
    ensures parts != []
    decreases |s|
  {
    if sep <= s then [""] + Split(s[|sep|..], sep)
    else if s == "" then [""]
    else
      var rest := Split(s[1..], sep);
      [[s[0]] + rest[0]] + rest[1..]
  }

  function Join(parts: seq<string>, sep: string): string {
    if parts == [] then ""
    else if |parts| == 1 then parts[0]
    else parts[0] + sep + Join(parts[1..], sep)
  }

  function Last<T>(parts: seq<T>): T
    requires parts != []
  {
    parts[|parts| - 1]
  }

  lemma JoinGrowsHead(c: char, parts: seq<string>, sep: string)
    requires parts != []
    ensures Join([[c] + parts[0]] + parts[1..], sep) == [c] + Join(parts, sep)
  {
    var grown := [[c] + parts[0]] + parts[1..];
    assert grown[1..] == parts[1..];
    if |parts| > 1 {
      var tail := sep + Join(parts[1..], sep);
      assert Join(grown, sep) == ([c] + parts[0]) + tail;
      assert ([c] + parts[0]) + tail == [c] + (parts[0] + tail);
    }
  }

  /** Joining the pieces gives the string back, for every separator. */
  lemma {:induction false} JoinUndoesSplit(s: string, sep: string)
    requires sep != ""
    ensures Join(Split(s, sep), sep) == s
    decreases |s|
  {
    if sep <= s {
      var rest := Split(s[|sep|..], sep);
      JoinUndoesSplit(s[|sep|..], sep);
      assert ([""] + rest)[1..] == rest;
      assert Join([""] + rest, sep) == "" + sep + Join(rest, sep);
    } else if s == "" {
    } else {
      JoinUndoesSplit(s[1..], sep);
      JoinGrowsHead(s[0], Split(s[1..], sep), sep);
    }
  }

  /** A first piece without the separator character is split off unchanged. */
  lemma {:induction false} SplitHead(a: string, c: char, rest: string)
    requires c !in a
    ensures Split(a + [c] + rest, [c]) == [a] + Split(rest, [c])
  {
    var s := a + [c] + rest;
    if a == "" {
      assert s == [c] + rest;
      assert s[1..] == rest;
    } else {
      assert s[0] == a[0];
      assert s[1..] == a[1..] + [c] + rest;
      SplitHead(a[1..], c, rest);
      assert a == [a[0]] + a[1..];
    }
  }

  lemma {:induction false} SplitWhole(a: string, c: char)
    requires c !in a
    ensures Split(a, [c]) == [a]
  {
    if a == "" {
    } else {
      SplitWhole(a[1..], c);
      assert a == [a[0]] + a[1..];
    }
  }

  /** Splitting a joined list gives the list back when no element holds the separator. */
  lemma {:induction false} SplitUndoesJoin(parts: seq<string>, c: char)
    requires parts != []
    requires forall p :: p in parts ==> c !in p
    ensures Split(Join(parts, [c]), [c]) == parts
  {
    if |parts| == 1 {
      SplitWhole(parts[0], c);
    } else {
      SplitHead(parts[0], c, Join(parts[1..], [c]));
      SplitUndoesJoin(parts[1..], c);
      assert parts == [parts[0]] + parts[1..];
    }
  }

  /** No piece of a split holds the (one-character) separator. */
  lemma {:induction false} PiecesLackSeparator(s: string, c: char)
    ensures forall p :: p in Split(s, [c]) ==> c !in p
  {
    if s == "" {
    } else {
      PiecesLackSeparator(s[1..], c);
    }
  }

  // ----- replace, lower case, trim -----

  /** `pat` starts at one of the first `n` positions of `s`. */
  predicate OccursBefore(s: string, pat: string, n: nat) {
    exists i :: 0 <= i < n && i <= |s| && pat <= s[i..]
  }

  /** `s.replace(pat, '')`: drops the first occurrence of `pat`, if any. */
  function DropFirst(s: string, pat: string): string {
    if pat <= s then s[|pat|..]
    else if s == "" then ""
    else [s[0]] + DropFirst(s[1..], pat)
  }

  /** The first occurrence goes, wherever it is, and nothing else. */
  lemma {:induction false} DropFirstRemoves(a: string, pat: string, b: string)
    requires !OccursBefore(a + pat + b, pat, |a|)
    ensures DropFirst(a + pat + b, pat) == a + b
  {
    var s := a + pat + b;
    if a == "" {
      assert s == pat + b;
      DropPrefix(pat, b);
    } else {
      assert s[0..] == s && !(pat <= s[0..]);
      assert s[1..] == a[1..] + pat + b;
      forall i | 0 <= i < |a[1..]| && i <= |s[1..]| ensures !(pat <= s[1..][i..]) {
        assert s[1..][i..] == s[i + 1..];
      }
      DropFirstRemoves(a[1..], pat, b);
      assert [s[0]] + (a[1..] + b) == a + b;
    }
  }

  lemma {:induction false} DropFirstAbsent(s: string, pat: string)
    requires !OccursBefore(s, pat, |s| + 1)
    ensures DropFirst(s, pat) == s
  {
    assert s[0..] == s && !(pat <= s[0..]);
    if s == "" {
    } else {
      forall i | 0 <= i < |s[1..]| + 1 && i <= |s[1..]| ensures !(pat <= s[1..][i..]) {
        assert s[1..][i..] == s[i + 1..];
      }
      DropFirstAbsent(s[1..], pat);
    }
  }

  lemma DropPrefix(pat: string, s: string)
    ensures DropFirst(pat + s, pat) == s
  {
    assert (pat + s)[..|pat|] == pat;
  }

  function LowerChar(c: char): char {
    if 'A' <= c <= 'Z' then ((c as int) + 32) as char else c
  }

  /** `toLowerCase` on ASCII text. */
  function Lower(s: string): (r: string)
    ensures |r| == |s|
  {
    seq(|s|, i requires 0 <= i < |s| => LowerChar(s[i]))
  }

  lemma LowerIdempotent(s: string)
    ensures Lower(Lower(s)) == Lower(s)
  {
  }

  /** The same character, or the two cases of one ASCII letter. */
  predicate SameLetter(c: char, d: char) {
    || c == d
    || ('A' <= c <= 'Z' && 'a' <= d <= 'z' && c as int - 'A' as int == d as int - 'a' as int)
    || ('a' <= c <= 'z' && 'A' <= d <= 'Z' && c as int - 'a' as int == d as int - 'A' as int)
  }

  predicate SameUpToCase(a: string, b: string) {
    |a| == |b| && forall i :: 0 <= i < |a| ==> SameLetter(a[i], b[i])
  }

  /** Lower case texts are equal exactly when the texts differ in the case of letters only. */
  lemma LowerEqualIff(a: string, b: string)
    ensures Lower(a) == Lower(b) <==> SameUpToCase(a, b)
  {
    if |a| == |b| {
      forall i | 0 <= i < |a| ensures Lower(a)[i] == Lower(b)[i] <==> SameLetter(a[i], b[i]) {
        LowerCharEqualIff(a[i], b[i]);
      }
    }
  }

  lemma LowerCharEqualIff(c: char, d: char)
    ensures LowerChar(c) == LowerChar(d) <==> SameLetter(c, d)
  {
  }

  /** The lower case of a text: it differs in case only, and holds no capital. */
  lemma LowerIsLower(s: string)
    ensures SameUpToCase(Lower(s), s)
    ensures forall i :: 0 <= i < |s| ==> !('A' <= Lower(s)[i] <= 'Z')
  {
  }

  /** White space and line ends of the host language, by code point. */
  predicate IsSpace(c: char) {
    var n := c as int;
    9 <= n <= 13 || n == 0x20 || n == 0xa0 || n == 0x1680 || 0x2000 <= n <= 0x200a
    || n == 0x2028 || n == 0x2029 || n == 0x202f || n == 0x205f || n == 0x3000 || n == 0xfeff
  }

  lemma SpaceIff(c: char)
    ensures IsSpace(c)
            <==> c in " \t\n\r\U{b}\U{c}\U{a0}\U{1680}\U{2028}\U{2029}\U{202f}\U{205f}\U{3000}\U{feff}"
                 || '\U{2000}' <= c <= '\U{200a}'
  {
  }

  function TrimStart(s: string): string {
    if s != "" && IsSpace(s[0]) then TrimStart(s[1..]) else s
  }

  function TrimEnd(s: string): string {
    if s != "" && IsSpace(s[|s| - 1]) then TrimEnd(s[..|s| - 1]) else s
  }

  function Trim(s: string): string {
    TrimEnd(TrimStart(s))
  }

  lemma TrimKeepsAbsence(s: string, c: char)
    requires c !in s
    ensures c !in TrimStart(s) && c !in TrimEnd(s) && c !in Trim(s)
  {
    TrimStartKeepsAbsence(s, c);
    TrimEndKeepsAbsence(s, c);
    TrimEndKeepsAbsence(TrimStart(s), c);
  }

  lemma TrimStartKeepsAbsence(s: string, c: char)
    requires c !in s
    ensures c !in TrimStart(s)
  {
  }

  lemma TrimEndKeepsAbsence(s: string, c: char)
    requires c !in s
    ensures c !in TrimEnd(s)
  {
  }

  /** What is trimmed away is space on both sides, and what is left has none at its ends. */
  lemma TrimIsMiddle(s: string) returns (i: nat, j: nat)
    ensures i <= j <= |s| && Trim(s) == s[i..j]
    ensures forall k :: (0 <= k < i || j <= k < |s|) ==> IsSpace(s[k])
    ensures i < j ==> !IsSpace(s[i]) && !IsSpace(s[j - 1])
  {
    var t := TrimStart(s);
    TrimStartIsSuffix(s);
    TrimEndIsPrefix(t);
    i := |s| - |t|;
    j := i + |Trim(s)|;
    forall k | 0 <= k < i || j <= k < |s| ensures IsSpace(s[k]) {
      if k >= j {
        assert s[k] == t[k - i];
      }
    }
  }

  lemma {:induction false} TrimStartIsSuffix(s: string)
    ensures |TrimStart(s)| <= |s| && TrimStart(s) == s[|s| - |TrimStart(s)|..]
    ensures forall k :: 0 <= k < |s| - |TrimStart(s)| ==> IsSpace(s[k])
    ensures TrimStart(s) != "" ==> !IsSpace(TrimStart(s)[0])
  {
    if s == "" || !IsSpace(s[0]) {
    } else {
      var n := |s| - |TrimStart(s)|;
      TrimStartIsSuffix(s[1..]);
      assert s[1..][n - 1..] == s[n..];
      forall k | 0 <= k < n ensures IsSpace(s[k]) {
        if k > 0 {
          assert s[k] == s[1..][k - 1];
        }
      }
    }
  }

  lemma {:induction false} TrimEndIsPrefix(s: string)
    ensures |TrimEnd(s)| <= |s| && TrimEnd(s) == s[..|TrimEnd(s)|]
    ensures forall k :: |TrimEnd(s)| <= k < |s| ==> IsSpace(s[k])
    ensures TrimEnd(s) != "" ==> !IsSpace(TrimEnd(s)[|TrimEnd(s)| - 1])
  {
    if s == "" || !IsSpace(s[|s| - 1]) {
    } else {
      TrimEndIsPrefix(s[..|s| - 1]);
    }
  }

  // ----- the name after the last slash -----

  /** The text after the last '/', or the whole string. */
  function BaseName(s: string): (r: string)
    ensures '/' !in r
  {
    if '/' !in s then s else BaseName(s[1..])
  }

  /** `BaseName` is the only slash-free suffix that starts the string or follows a slash. */
  lemma {:induction false} BaseNameAfterSlash(p: string, r: string)
    ensures BaseName(p + "/" + r) == BaseName(r)
  {
    var s := p + "/" + r;
    assert s[|p|] == '/';
    if p == "" {
      assert s[1..] == r;
    } else {
      assert s[1..] == p[1..] + "/" + r;
      BaseNameAfterSlash(p[1..], r);
    }
  }
}
