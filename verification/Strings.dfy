/** The string operations the exchange adapter builds on, over ASCII text. */
module Strings {

  predicate IsSpace(c: char) {
    c == ' ' || '\t' <= c <= '\r'
  }

  function UpperChar(c: char): char {
    if 'a' <= c <= 'z' then (c as int - 32) as char else c
  }

  function ToUpper(s: string): (r: string)
    ensures |r| == |s|
    ensures forall i :: 0 <= i < |s| ==> r[i] == UpperChar(s[i])
  {
    seq(|s|, i requires 0 <= i < |s| => UpperChar(s[i]))
  }

  function ReplaceChar(s: string, from: char, to: char): (r: string)
    ensures |r| == |s|
    ensures forall i :: 0 <= i < |s| ==> r[i] == if s[i] == from then to else s[i]
  {
    seq(|s|, i requires 0 <= i < |s| => if s[i] == from then to else s[i])
  }

  /** No space at either end. */
  predicate Trimmed(s: string) {
    s == "" || (!IsSpace(s[0]) && !IsSpace(s[|s| - 1]))
  }

  function TrimLeft(s: string): (r: string)
    ensures r == "" || !IsSpace(r[0])
    ensures s == "" || !IsSpace(s[0]) ==> r == s
  {
    if s != "" && IsSpace(s[0]) then TrimLeft(s[1..]) else s
  }

  function TrimRight(s: string): (r: string)
    ensures r == "" || !IsSpace(r[|r| - 1])
    ensures s != "" && !IsSpace(s[0]) ==> r != "" && r[0] == s[0]
    ensures s == "" || !IsSpace(s[|s| - 1]) ==> r == s
  {
    if s != "" && IsSpace(s[|s| - 1]) then TrimRight(s[..|s| - 1]) else s
  }

  function TrimSpace(s: string): (r: string)
    ensures Trimmed(r)
    ensures Trimmed(s) ==> r == s
  {
    TrimRight(TrimLeft(s))
  }

  /** The white space of ASCII: blank, tab, line feed, vertical tab, form feed, carriage return. */
  lemma SpaceChars(c: char)
    ensures IsSpace(c) <==> c as int in {32, 9, 10, 11, 12, 13}
  {
  }

  predicate AllSpaces(s: string) {
    forall i :: 0 <= i < |s| ==> IsSpace(s[i])
  }

  lemma {:induction false} TrimLeftCuts(s: string) returns (cut: string)
    ensures s == cut + TrimLeft(s) && AllSpaces(cut)
  {
    if s != "" && IsSpace(s[0]) {
      var rest := TrimLeftCuts(s[1..]);
      cut := [s[0]] + rest;
    } else {
      cut := "";
    }
  }

  lemma {:induction false} TrimRightCuts(s: string) returns (cut: string)
    ensures s == TrimRight(s) + cut && AllSpaces(cut)
  {
    if s != "" && IsSpace(s[|s| - 1]) {
      var rest := TrimRightCuts(s[..|s| - 1]);
      cut := rest + [s[|s| - 1]];
    } else {
      cut := "";
    }
  }

  /** Trimming cuts white space from both ends and nothing else. */
  lemma TrimCuts(s: string) returns (left: string, right: string)
    ensures s == left + TrimSpace(s) + right && AllSpaces(left) && AllSpaces(right)
  {
    left := TrimLeftCuts(s);
    right := TrimRightCuts(TrimLeft(s));
  }

  /** Capitals are thirty-two below their small letters; every other character stays. */
  lemma UpperChars(c: char)
    ensures UpperChar(c) == if 97 <= c as int <= 122 then (c as int - 32) as char else c
  {
  }

  lemma {:induction false} TrimLeftChars(s: string, c: char)
    requires c in TrimLeft(s)
    ensures c in s
  {
    if s != "" && IsSpace(s[0]) {
      TrimLeftChars(s[1..], c);
    }
  }

  lemma {:induction false} TrimRightChars(s: string, c: char)
    requires c in TrimRight(s)
    ensures c in s
  {
    if s != "" && IsSpace(s[|s| - 1]) {
      TrimRightChars(s[..|s| - 1], c);
    }
  }

  lemma TrimSpaceChars(s: string, c: char)
    requires c in TrimSpace(s)
    ensures c in s
  {
    TrimRightChars(TrimLeft(s), c);
    TrimLeftChars(s, c);
  }

  predicate HasPrefix(s: string, p: string) {
    p <= s
  }

  predicate HasSuffix(s: string, p: string) {
    |p| <= |s| && s[|s| - |p|..] == p
  }

  /** The first position of `c` in `s`, or |s|. */
  function IndexOf(s: string, c: char): (i: nat)
    ensures i <= |s|
    ensures forall k :: 0 <= k < i ==> s[k] != c
    ensures i < |s| ==> s[i] == c
  {
    if s == "" || s[0] == c then 0 else IndexOf(s[1..], c) + 1
  }

  /** The separator of `a + [c] + b` is found after `a` when `a` does not hold it. */
  lemma IndexOfConcat(a: string, c: char, b: string)
    requires c !in a
    ensures IndexOf(a + ([c] + b), c) == |a|
  {
    var s := a + ([c] + b);
    var i := IndexOf(s, c);
    assert s[|a|] == c;
    assert forall k :: 0 <= k < |a| ==> s[k] == a[k] && a[k] in a;
  }

  function Split(s: string, sep: char): (parts: seq<string>)
    ensures |parts| > 0
    decreases |s|
  {
    var i := IndexOf(s, sep);
    if i == |s| then
      [s]
    else
      [s[..i]] + Split(s[i + 1..], sep)
  }

  lemma {:induction false} SplitParts(s: string, sep: char)
    ensures forall p :: p in Split(s, sep) ==> sep !in p
    ensures |Split(s, sep)| == 1 <==> sep !in s
    decreases |s|
  {
    var i := IndexOf(s, sep);
    if i < |s| {
      SplitParts(s[i + 1..], sep);
    }
  }

  lemma {:induction false} SplitChars(s: string, sep: char, p: string, c: char)
    requires p in Split(s, sep) && c in p
    ensures c in s
    decreases |s|
  {
    var i := IndexOf(s, sep);
    if i < |s| && p != s[..i] {
      SplitChars(s[i + 1..], sep, p, c);
    }
  }

  function Join(parts: seq<string>, sep: string): string {
    if parts == [] then "" else if |parts| == 1 then parts[0] else parts[0] + sep + Join(parts[1..], sep)
  }

  /** Splitting undoes joining when no part holds the separator. */
  lemma {:induction false} SplitJoin(parts: seq<string>, sep: char)
    requires |parts| > 0
    requires forall p :: p in parts ==> sep !in p
    ensures Split(Join(parts, [sep]), sep) == parts
  {
    var s := Join(parts, [sep]);
    var i := IndexOf(s, sep);
    if |parts| == 1 {
      assert s == parts[0];
      assert parts[0] in parts && i == |s|;
      assert s[..i] == s;
    } else {
      var rest := Join(parts[1..], [sep]);
      assert s == parts[0] + ([sep] + rest);
      assert parts[0] in parts;
      IndexOfConcat(parts[0], sep, rest);
      assert s[..i] == parts[0] && s[i + 1..] == rest;
      SplitJoin(parts[1..], sep);
    }
  }

  /** The characters of a join come from its parts or from the separator. */
  lemma {:induction false} JoinChars(parts: seq<string>, sep: char, c: char)
    ensures c in Join(parts, [sep]) ==> (c == sep && |parts| > 1) || exists p :: p in parts && c in p
    ensures |parts| > 1 ==> sep in Join(parts, [sep])
  {
    if |parts| > 1 {
      JoinChars(parts[1..], sep, c);
      var s := Join(parts, [sep]);
      assert s == parts[0] + ([sep] + Join(parts[1..], [sep]));
      assert s[|parts[0]|] == sep;
      if c in s && c != sep && c !in parts[0] {
        assert c in Join(parts[1..], [sep]);
        var p :| p in parts[1..] && c in p;
        assert p in parts;
      }
    } else if |parts| == 1 && c in Join(parts, [sep]) {
      assert parts[0] in parts && c in parts[0];
    }
  }

  /** Joining trimmed parts around a non-space separator gives a trimmed string. */
  lemma {:induction false} JoinTrimmed(parts: seq<string>, sep: char)
    requires !IsSpace(sep)
    requires forall p :: p in parts ==> Trimmed(p)
    ensures Trimmed(Join(parts, [sep]))
  {
    if |parts| > 1 {
      JoinTrimmed(parts[1..], sep);
      var tail := Join(parts[1..], [sep]);
      var s := Join(parts, [sep]);
      assert parts[0] in parts;
      assert s == parts[0] + ([sep] + tail);
      assert s[0] == if parts[0] == "" then sep else parts[0][0];
      assert s[|s| - 1] == if tail == "" then sep else tail[|tail| - 1];
    }
  }
}
