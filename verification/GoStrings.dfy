/** The parts of Go's strings package that the stored lists of keys, models and proxies go through. */
module GoStrings {
  /** unicode.IsSpace */
  const SPACES: set<char> := {
    '\t', '\n', '\U{000B}', '\U{000C}', '\r', ' ', '\U{0085}', '\U{00A0}', '\U{1680}',
    '\U{2000}', '\U{2001}', '\U{2002}', '\U{2003}', '\U{2004}', '\U{2005}', '\U{2006}', '\U{2007}',
    '\U{2008}', '\U{2009}', '\U{200A}', '\U{2028}', '\U{2029}', '\U{202F}', '\U{205F}', '\U{3000}' }

  function TrimLeft(s: string, cut: set<char>): string {
    if s != "" && s[0] in cut then TrimLeft(s[1..], cut) else s
  }

  function TrimRight(s: string, cut: set<char>): string {
    if s != "" && s[|s| - 1] in cut then TrimRight(s[..|s| - 1], cut) else s
  }

  /** strings.Trim with a cutset; TrimSpace cuts white space. */
  function Trim(s: string, cut: set<char>): string {
    TrimRight(TrimLeft(s, cut), cut)
  }

  function TrimSpace(s: string): string {
    Trim(s, SPACES)
  }

  predicate IsTrimmed(s: string, cut: set<char>) {
    s == "" || (s[0] !in cut && s[|s| - 1] !in cut)
  }

  /** strings.Split by a one-character separator. */
  function Split(s: string, sep: char): (parts: seq<string>)
    ensures |parts| > 0
    ensures forall p :: p in parts ==> sep !in p
  {
    if s == "" then [""]
    else
      var rest := Split(s[1..], sep);
      if s[0] == sep then [""] + rest else [[s[0]] + rest[0]] + rest[1..]
  }

  function Join(parts: seq<string>, sep: char): string {
    if parts == [] then ""
    else if |parts| == 1 then parts[0]
    else parts[0] + [sep] + Join(parts[1..], sep)
  }

  // ----- Trimming

  lemma TrimLeftStarts(s: string, cut: set<char>)
    ensures var t := TrimLeft(s, cut);
            (t == "" || t[0] !in cut) && forall c :: c in t ==> c in s
  {
  }

  lemma TrimRightEnds(s: string, cut: set<char>)
    ensures var t := TrimRight(s, cut);
            && (t == "" || t[|t| - 1] !in cut)
            && (forall c :: c in t ==> c in s)
            && (t != "" ==> t[0] == s[0])
  {
  }

  lemma TrimIsTrimmed(s: string, cut: set<char>)
    ensures IsTrimmed(Trim(s, cut), cut)
    ensures forall c :: c in Trim(s, cut) ==> c in s
  {
    TrimLeftStarts(s, cut);
    TrimRightEnds(TrimLeft(s, cut), cut);
  }

  /** `t` is what is left of `s` between two runs of cut characters. */
  predicate MiddleOf(t: string, s: string, cut: set<char>, i: nat, j: nat) {
    && i <= j <= |s| && t == s[i..j]
    && (forall k :: 0 <= k < i ==> s[k] in cut) && (forall k :: j <= k < |s| ==> s[k] in cut)
  }

  /** Trimming takes away two runs of cut characters, and nothing else. */
  lemma TrimIsMiddle(s: string, cut: set<char>)
    ensures exists i, j :: MiddleOf(Trim(s, cut), s, cut, i, j)
  {
    var i := TrimLeftFrom(s, cut);
    var j := TrimRightTo(s[i..], cut);
    assert MiddleOf(Trim(s, cut), s, cut, i, i + j);
  }

  lemma {:induction false} TrimLeftFrom(s: string, cut: set<char>) returns (i: nat)
    ensures i <= |s| && TrimLeft(s, cut) == s[i..] && forall k :: 0 <= k < i ==> s[k] in cut
  {
    i := 0;
    if s != "" && s[0] in cut {
      var rest := TrimLeftFrom(s[1..], cut);
      i := rest + 1;
      assert forall k :: 1 <= k < i ==> s[k] == s[1..][k - 1];
    }
  }

  lemma {:induction false} TrimRightTo(s: string, cut: set<char>) returns (j: nat)
    ensures j <= |s| && TrimRight(s, cut) == s[..j] && forall k :: j <= k < |s| ==> s[k] in cut
  {
    j := |s|;
    if s != "" && s[|s| - 1] in cut {
      j := TrimRightTo(s[..|s| - 1], cut);
      assert s[..|s| - 1][..j] == s[..j];
    }
  }

  /** White space as Unicode lists it. */
  lemma SpacesAre(c: char)
    ensures c in SPACES <==>
      || '\t' <= c <= '\r' || c == ' ' || c == '\U{0085}' || c == '\U{00A0}' || c == '\U{1680}'
      || '\U{2000}' <= c <= '\U{200A}' || c == '\U{2028}' || c == '\U{2029}' || c == '\U{202F}' || c == '\U{205F}'
      || c == '\U{3000}'
  {
  }

  lemma TrimmedIsKept(s: string, cut: set<char>)
    requires IsTrimmed(s, cut)
    ensures Trim(s, cut) == s
  {
  }

  // ----- Splitting undoes joining

  lemma SplitPlain(s: string, sep: char)
    requires sep !in s
    ensures Split(s, sep) == [s]
  {
    if s != "" {
      SplitPlain(s[1..], sep);
      assert [s[0]] + s[1..] == s;
    }
  }

  /** Joining undoes splitting; with the parts free of separators there is only one such list. */
  lemma {:induction false} JoinSplit(s: string, sep: char)
    ensures Join(Split(s, sep), sep) == s
  {
    if s != "" {
      JoinSplit(s[1..], sep);
      assert s == [s[0]] + s[1..];
      var rest := Split(s[1..], sep);
      if s[0] == sep {
        assert ([""] + rest)[1..] == rest;
      } else {
        JoinPrefixed(s[0], rest, sep);
      }
    }
  }

  lemma JoinPrefixed(c: char, parts: seq<string>, sep: char)
    requires parts != []
    ensures Join([[c] + parts[0]] + parts[1..], sep) == [c] + Join(parts, sep)
  {
    var more := [[c] + parts[0]] + parts[1..];
    assert more[1..] == parts[1..];
  }

  lemma SplitAtSeparator(s: string, rest: string, sep: char)
    requires sep !in s
    ensures Split(s + [sep] + rest, sep) == [s] + Split(rest, sep)
  {
    var all := s + [sep] + rest;
    if s == "" {
      assert all[1..] == rest;
    } else {
      assert all[1..] == s[1..] + [sep] + rest;
      SplitAtSeparator(s[1..], rest, sep);
      assert [s[0]] + s[1..] == s;
    }
  }

  lemma {:induction false} SplitJoin(parts: seq<string>, sep: char)
    requires parts != []
    requires forall p :: p in parts ==> sep !in p
    ensures Split(Join(parts, sep), sep) == parts
  {
    if |parts| == 1 {
      SplitPlain(parts[0], sep);
    } else {
      SplitJoin(parts[1..], sep);
      SplitAtSeparator(parts[0], Join(parts[1..], sep), sep);
    }
  }

  /** A joined list starts and ends as its first and last elements do. */
  lemma {:induction false} JoinEnds(parts: seq<string>, sep: char)
    requires parts != [] && parts[0] != "" && parts[|parts| - 1] != ""
    ensures var j, last := Join(parts, sep), parts[|parts| - 1];
            j != "" && j[0] == parts[0][0] && j[|j| - 1] == last[|last| - 1]
  {
    if |parts| > 1 {
      JoinLast(parts[1..], sep);
    }
  }

  lemma {:induction false} JoinLast(parts: seq<string>, sep: char)
    requires parts != [] && parts[|parts| - 1] != ""
    ensures var j, last := Join(parts, sep), parts[|parts| - 1]; j != "" && j[|j| - 1] == last[|last| - 1]
  {
    if |parts| > 1 {
      JoinLast(parts[1..], sep);
    }
  }

  /** The first and last parts of a text that does not start or end with a separator are not empty. */
  lemma {:induction false} SplitEnds(s: string, sep: char)
    requires s != "" && s[|s| - 1] != sep
    ensures s[0] != sep ==> Split(s, sep)[0] != ""
    ensures var parts := Split(s, sep); parts[|parts| - 1] != ""
  {
    var rest := Split(s[1..], sep);
    if |s| > 1 {
      assert s[1..][|s[1..]| - 1] == s[|s| - 1];
      SplitEnds(s[1..], sep);
      if s[0] == sep {
        assert Split(s, sep) == [""] + rest;
      } else {
        assert Split(s, sep) == [[s[0]] + rest[0]] + rest[1..];
      }
    }
  }

  /** Cutting only the separator: a stored list is read back as it was stored. */
  lemma ReadBack(parts: seq<string>, sep: char)
    requires parts != [] && forall p :: p in parts ==> sep !in p
    requires parts[0] != "" && parts[|parts| - 1] != ""
    ensures Split(Trim(Join(parts, sep), {sep}), sep) == parts
  {
    JoinEnds(parts, sep);
    assert parts[0] in parts && parts[|parts| - 1] in parts;
    assert parts[0][0] in parts[0];
    var last := parts[|parts| - 1];
    assert last[|last| - 1] in last;
    TrimmedIsKept(Join(parts, sep), {sep});
    SplitJoin(parts, sep);
  }
}
