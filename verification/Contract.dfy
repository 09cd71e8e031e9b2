/**
 * Contract names: the BASE/QUOTE form, the exchange's BASE_QUOTE form and the candlestick
 * channel's interval_BASE_QUOTE names.
 */
module Contract {
  import opened Strings

  function SlashFromCompactUSDT(s: string): string {
    var u := ToUpper(TrimSpace(s));
    if HasSuffix(u, "USDT") && |u| > 4 then u[..|u| - 4] + "/USDT" else u
  }

  function NormalizePart(p: string): string {
    ToUpper(TrimSpace(p))
  }

  function NormalizeParts(parts: seq<string>): (r: seq<string>)
    ensures |r| == |parts|
    ensures forall i :: 0 <= i < |parts| ==> r[i] == NormalizePart(parts[i])
  {
    seq(|parts|, i requires 0 <= i < |parts| => NormalizePart(parts[i]))
  }

  /** The text CanonicalContract splits on '/': trimmed, underscores turned, compact names opened. */
  function Slashed(s: string): string {
    var t := ReplaceChar(TrimSpace(s), '_', '/');
    if '/' in t then t else SlashFromCompactUSDT(t)
  }

  function CanonicalContract(s: string): string {
    if TrimSpace(s) == "" then "" else Join(NormalizeParts(Split(Slashed(s), '/')), "/")
  }

  function ToGateContract(c: string): string {
    ReplaceChar(CanonicalContract(c), '/', '_')
  }

  /** The text before and after the first underscore, unless either is missing. */
  function CutName(n: string): (string, string) {
    var i := IndexOf(n, '_');
    if i == |n| || i == 0 || i >= |n| - 1 then ("", "") else (n[..i], n[i + 1..])
  }

  function ParseCandlestickName(name: string): (string, string) {
    var cut := CutName(TrimSpace(name));
    if cut.0 == "" then ("", "") else (cut.0, CanonicalContract(cut.1))
  }

  predicate IsCanonical(c: string) {
    c == CanonicalContract(c)
  }

  /** Rewrites every part where it stands. */
  method NormalizeInPlace(parts: array<string>)
    modifies parts
    ensures parts[..] == NormalizeParts(old(parts[..]))
  {
    for i := 0 to parts.Length
      invariant forall k :: 0 <= k < i ==> parts[k] == NormalizePart(old(parts[k]))
      invariant forall k :: i <= k < parts.Length ==> parts[k] == old(parts[k])
    {
      parts[i] := ToUpper(TrimSpace(parts[i]));
    }
  }

  method Canonicalize(s: string) returns (c: string)
    ensures c == CanonicalContract(s)
  {
    var t := TrimSpace(s);
    if t == "" { return ""; }
    t := ReplaceChar(t, '_', '/');
    if '/' !in t { t := SlashFromCompactUSDT(t); }
    var parts := SplitIntoArray(t);
    NormalizeInPlace(parts);
    c := Join(parts[..], "/");
  }

  method SplitIntoArray(t: string) returns (parts: array<string>)
    ensures fresh(parts) && parts[..] == Split(t, '/')
  {
    var split := Split(t, '/');
    parts := new string[|split|](i requires 0 <= i < |split| => split[i]);
  }

  /** What every canonical name looks like. */
  predicate CanonicalShape(c: string) {
    && Trimmed(c)
    && '_' !in c
    && (forall p :: p in Split(c, '/') ==> NormalizePart(p) == p)
    && ('/' !in c ==> c == ToUpper(c) && !(HasSuffix(c, "USDT") && |c| > 4))
  }

  lemma UpperTwice(s: string)
    ensures ToUpper(ToUpper(s)) == ToUpper(s)
    ensures Trimmed(s) ==> Trimmed(ToUpper(s))
  {
  }

  lemma NormalizePartChars(p: string, c: char)
    requires c in NormalizePart(p) && !('A' <= c <= 'Z')
    ensures c in p
  {
    var t := TrimSpace(p);
    var i :| 0 <= i < |t| && ToUpper(t)[i] == c;
    assert t[i] == c;
    TrimSpaceChars(p, c);
  }

  lemma NormalizePartFixed(p: string)
    ensures NormalizePart(NormalizePart(p)) == NormalizePart(p) && Trimmed(NormalizePart(p))
  {
    UpperTwice(TrimSpace(p));
  }

  /** A part without slash or underscore stays so under normalisation. */
  lemma NormalizedPartClean(s: string, q: string)
    requires '_' !in s && q in Split(s, '/')
    ensures '/' !in NormalizePart(q) && '_' !in NormalizePart(q)
  {
    SplitParts(s, '/');
    if '_' in NormalizePart(q) {
      NormalizePartChars(q, '_');
      SplitChars(s, '/', q, '_');
    }
    if '/' in NormalizePart(q) { NormalizePartChars(q, '/'); }
  }

  lemma NormalizedPartsClean(s: string)
    requires '_' !in s
    ensures forall p :: p in NormalizeParts(Split(s, '/')) ==> '/' !in p && '_' !in p && Trimmed(p) && NormalizePart(p) == p
  {
    var parts := Split(s, '/');
    var r := NormalizeParts(parts);
    forall i | 0 <= i < |r| ensures '/' !in r[i] && '_' !in r[i] && Trimmed(r[i]) && NormalizePart(r[i]) == r[i] {
      NormalizePartFixed(parts[i]);
      NormalizedPartClean(s, parts[i]);
    }
  }

  lemma SlashedClean(s: string)
    ensures '_' !in Slashed(s)
    ensures '/' !in Slashed(s) ==>
      Slashed(s) == NormalizePart(Slashed(s)) && !(HasSuffix(Slashed(s), "USDT") && |Slashed(s)| > 4)
  {
    var t := ReplaceChar(TrimSpace(s), '_', '/');
    assert '_' !in t;
    if '/' !in t {
      CompactClean(t);
    }
  }

  lemma CompactClean(t: string)
    requires '_' !in t && '/' !in t
    ensures '_' !in SlashFromCompactUSDT(t)
    ensures '/' !in SlashFromCompactUSDT(t) ==>
      SlashFromCompactUSDT(t) == NormalizePart(t) == NormalizePart(NormalizePart(t))
      && !(HasSuffix(NormalizePart(t), "USDT") && |NormalizePart(t)| > 4)
  {
    var u := NormalizePart(t);
    NormalizePartFixed(t);
    if '_' in u { NormalizePartChars(t, '_'); }
    if '/' in u { NormalizePartChars(t, '/'); }
    if HasSuffix(u, "USDT") && |u| > 4 {
      assert SlashFromCompactUSDT(t)[|u| - 4] == '/';
    }
  }

  lemma CanonicalHasShape(s: string)
    ensures CanonicalShape(CanonicalContract(s))
  {
    if TrimSpace(s) == "" {
      assert Split("", '/') == [""];
    } else {
      SlashedClean(s);
      JoinedHasShape(Slashed(s));
    }
  }

  lemma JoinedSingle(w: string)
    requires '/' !in w
    ensures NormalizeParts(Split(w, '/')) == [NormalizePart(w)]
  {
    assert IndexOf(w, '/') == |w|;
    assert Split(w, '/') == [w];
  }

  lemma ShapeOfJoin(parts: seq<string>)
    requires |parts| > 0
    requires forall p :: p in parts ==> '/' !in p && '_' !in p && Trimmed(p) && NormalizePart(p) == p
    requires |parts| == 1 ==> !(HasSuffix(parts[0], "USDT") && |parts[0]| > 4)
    ensures CanonicalShape(Join(parts, "/"))
  {
    var c := Join(parts, "/");
    SplitJoin(parts, '/');
    JoinTrimmed(parts, '/');
    JoinChars(parts, '/', '_');
    JoinChars(parts, '/', '/');
    if '/' !in c {
      assert c == parts[0] && c in parts;
    }
  }

  lemma JoinedHasShape(w: string)
    requires '_' !in w
    requires '/' !in w ==> w == NormalizePart(w) && !(HasSuffix(w, "USDT") && |w| > 4)
    ensures CanonicalShape(Join(NormalizeParts(Split(w, '/')), "/"))
  {
    NormalizedPartsClean(w);
    SplitParts(w, '/');
    if '/' !in w { JoinedSingle(w); }
    ShapeOfJoin(NormalizeParts(Split(w, '/')));
  }

  /** A name of canonical shape, in slash or in underscore form, normalises to itself. */
  lemma ShapeIsFixed(c: string, g: string)
    requires CanonicalShape(c)
    requires g == c || g == ReplaceChar(c, '/', '_')
    ensures CanonicalContract(g) == c
  {
    assert Trimmed(g);
    var t := ReplaceChar(g, '_', '/');
    assert t == c;
    if c != "" {
      if '/' !in c {
        UpperTwice(c);
        assert Slashed(g) == c;
      }
      var parts := Split(c, '/');
      forall i | 0 <= i < |parts| ensures NormalizeParts(parts)[i] == parts[i] {
        assert parts[i] in parts;
      }
      assert NormalizeParts(parts) == parts;
      JoinSplit(c, '/');
    }
  }

  /** Joining undoes splitting. */
  lemma {:induction false} JoinSplit(s: string, sep: char)
    ensures Join(Split(s, sep), [sep]) == s
    decreases |s|
  {
    var i := IndexOf(s, sep);
    if i == |s| {
      assert s[..i] == s;
    } else {
      JoinSplit(s[i + 1..], sep);
      assert s == s[..i] + [sep] + s[i + 1..];
      assert Split(s, sep)[1..] == Split(s[i + 1..], sep);
    }
  }

  /** Canonicalising twice is canonicalising once. */
  lemma CanonicalIdempotent(s: string)
    ensures CanonicalContract(CanonicalContract(s)) == CanonicalContract(s)
  {
    CanonicalHasShape(s);
    ShapeIsFixed(CanonicalContract(s), CanonicalContract(s));
  }

  /** The exchange's form of any name canonicalises to the name's canonical form. */
  lemma GateRoundTrip(s: string)
    ensures CanonicalContract(ToGateContract(s)) == CanonicalContract(s)
  {
    CanonicalHasShape(s);
    ShapeIsFixed(CanonicalContract(s), ToGateContract(s));
  }

  /** The exchange form has an underscore where the canonical form has a slash, and is the same elsewhere. */
  lemma GateFormAt(s: string)
    ensures var c, g := CanonicalContract(s), ToGateContract(s);
      && |g| == |c| && '/' !in g && '_' !in c
      && forall i :: 0 <= i < |c| ==> g[i] == if c[i] == '/' then '_' else c[i]
  {
    CanonicalHasShape(s);
  }

  /** A part of a name as users write it: no separator, no blanks around it. */
  predicate Plain(w: string) {
    w != "" && Trimmed(w) && '/' !in w && '_' !in w
  }

  lemma PlainUpper(w: string)
    requires Plain(w)
    ensures Plain(ToUpper(w)) && NormalizePart(w) == ToUpper(w) == NormalizePart(ToUpper(w))
  {
    UpperTwice(w);
    var u := ToUpper(w);
    assert forall i :: 0 <= i < |w| ==> w[i] in w;
    assert forall i :: 0 <= i < |u| ==> u[i] == UpperChar(w[i]);
  }

  lemma JoinPair(a: string, b: string)
    ensures Join([a, b], "/") == a + "/" + b
  {
    assert [a, b][1..] == [b];
    assert Join([b], "/") == b;
  }

  lemma SplitPair(a: string, b: string)
    requires '/' !in a && '/' !in b
    ensures Split(a + "/" + b, '/') == [a, b]
  {
    JoinPair(a, b);
    SplitJoin([a, b], '/');
  }

  lemma NormalizedPair(a: string, b: string)
    ensures NormalizeParts([a, b]) == [NormalizePart(a), NormalizePart(b)]
  {
  }

  /** A slashed text of two plain parts becomes the two in capitals. */
  lemma PairNormalized(a: string, b: string)
    requires Plain(a) && Plain(b)
    ensures Join(NormalizeParts(Split(a + "/" + b, '/')), "/") == ToUpper(a) + "/" + ToUpper(b)
  {
    SplitPair(a, b);
    PlainUpper(a);
    PlainUpper(b);
    NormalizedPair(a, b);
    JoinPair(ToUpper(a), ToUpper(b));
  }

  /** Base and quote with a slash or an underscore between them become capitals with a slash. */
  lemma PairCanonical(a: string, b: string, sep: char)
    requires Plain(a) && Plain(b) && (sep == '/' || sep == '_')
    ensures CanonicalContract(a + [sep] + b) == ToUpper(a) + "/" + ToUpper(b)
  {
    PairTrimmed(a, b, sep);
    PairSlashed(a, b, sep);
    PairNormalized(a, b);
  }

  lemma PairTrimmed(a: string, b: string, sep: char)
    requires Plain(a) && Plain(b)
    ensures a + [sep] + b != "" && TrimSpace(a + [sep] + b) == a + [sep] + b
  {
    var s := a + [sep] + b;
    assert s[0] == a[0] && s[|s| - 1] == b[|b| - 1];
  }

  lemma PairSlashed(a: string, b: string, sep: char)
    requires Plain(a) && Plain(b) && (sep == '/' || sep == '_')
    ensures ReplaceChar(a + [sep] + b, '_', '/') == a + "/" + b && '/' in a + "/" + b
  {
    var s, t := a + [sep] + b, a + "/" + b;
    forall i | 0 <= i < |s| ensures ReplaceChar(s, '_', '/')[i] == t[i] {
      if i < |a| {
        assert s[i] in a;
      } else if i > |a| {
        assert s[i] in b;
      }
    }
    assert t[|a|] == '/';
  }

  /** A compact name quoted in USDT is opened before its quote. */
  lemma CompactCanonical(base: string)
    requires Plain(base)
    ensures CanonicalContract(base + "USDT") == ToUpper(base) + "/USDT"
  {
    CompactSlashed(base);
    PlainUpper(base);
    UsdtPlain();
    PairNormalized(ToUpper(base), "USDT");
    UpperTwice(base);
  }

  lemma UsdtPlain()
    ensures Plain("USDT") && ToUpper("USDT") == "USDT"
    ensures forall s: string :: s + "/" + "USDT" == s + "/USDT"
  {
    assert ToUpper("USDT") == "USDT";
  }

  lemma CompactSlashed(base: string)
    requires Plain(base)
    ensures TrimSpace(base + "USDT") == base + "USDT"
    ensures Slashed(base + "USDT") == ToUpper(base) + "/" + "USDT"
  {
    CompactPlain(base);
    CompactUpper(base);
    assert ReplaceChar(base + "USDT", '_', '/') == base + "USDT";
  }

  lemma CompactPlain(base: string)
    requires Plain(base)
    ensures Plain(base + "USDT")
  {
    var s := base + "USDT";
    assert s[0] == base[0] && s[|s| - 1] == 'T';
    forall i | 0 <= i < |s| ensures s[i] != '/' && s[i] != '_' {
      if i < |base| { assert s[i] in base; }
    }
  }

  lemma CompactUpper(base: string)
    requires base != ""
    ensures var u := ToUpper(base + "USDT"); HasSuffix(u, "USDT") && |u| > 4 && u[..|u| - 4] == ToUpper(base)
  {
    var u := ToUpper(base + "USDT");
    assert u == ToUpper(base) + "USDT";
    assert u[|u| - 4..] == "USDT" && u[..|u| - 4] == ToUpper(base);
  }

  /** Different canonical names have different exchange names. */
  lemma GateInjective(a: string, b: string)
    requires IsCanonical(a) && IsCanonical(b) && ToGateContract(a) == ToGateContract(b)
    ensures a == b
  {
    GateRoundTrip(a);
    GateRoundTrip(b);
  }

  /** A candlestick channel name returns the interval and contract it was built from. */
  lemma CandlestickNameRoundTrip(interval: string, contract: string)
    requires IsCanonical(contract) && contract != ""
    requires interval != "" && Trimmed(interval) && '_' !in interval
    ensures ParseCandlestickName(interval + "_" + ToGateContract(contract)) == (interval, contract)
  {
    var g := ToGateContract(contract);
    GateTrimmed(contract);
    GateRoundTrip(contract);
    CutConcat(interval, g);
  }

  /** A name parses exactly if something stands before and after its first underscore, and then to these two pieces. */
  lemma ParsedPieces(name: string, interval: string, rest: string)
    requires TrimSpace(name) == interval + (['_'] + rest) && '_' !in interval
    ensures ParseCandlestickName(name) == if interval != "" && rest != "" then (interval, CanonicalContract(rest)) else ("", "")
  {
    var n := interval + (['_'] + rest);
    IndexOfConcat(interval, '_', rest);
    assert n[..|interval|] == interval && n[|interval| + 1..] == rest;
  }

  /** A name without an underscore does not parse. */
  lemma UnparsedWithout(name: string)
    requires '_' !in TrimSpace(name)
    ensures ParseCandlestickName(name) == ("", "")
  {
  }

  lemma CutConcat(a: string, b: string)
    requires a != "" && b != "" && Trimmed(a) && Trimmed(b) && '_' !in a
    ensures CutName(TrimSpace(a + "_" + b)) == (a, b)
  {
    var n := a + (['_'] + b);
    assert a + "_" + b == n;
    JoinedTrimmed(a, b);
    CutAt(a, b);
  }

  lemma JoinedTrimmed(a: string, b: string)
    requires a != "" && b != "" && Trimmed(a) && Trimmed(b)
    ensures Trimmed(a + (['_'] + b))
  {
    var n := a + (['_'] + b);
    assert n[0] == a[0] && n[|n| - 1] == b[|b| - 1];
  }

  lemma CutAt(a: string, b: string)
    requires a != "" && b != "" && '_' !in a
    ensures CutName(a + (['_'] + b)) == (a, b)
  {
    var n := a + (['_'] + b);
    IndexOfConcat(a, '_', b);
    assert n[..|a|] == a && n[|a| + 1..] == b;
  }

  lemma GateTrimmed(c: string)
    ensures Trimmed(ToGateContract(c)) && |ToGateContract(c)| == |CanonicalContract(c)|
  {
    CanonicalHasShape(c);
    TrimmedReplace(CanonicalContract(c));
  }

  lemma TrimmedReplace(c: string)
    requires Trimmed(c)
    ensures Trimmed(ReplaceChar(c, '/', '_'))
  {
  }
}
