/**
 * The exchange's client order tags: "t-" followed by the local order ID, or by a 28-digit
 * hexadecimal digest when the ID is too long. The digest function is a parameter.
 */
module GateText {
  import opened Strings

  const TEXT_BODY_MAX := 28

  predicate IsHexDigit(c: char) {
    '0' <= c <= '9' || 'a' <= c <= 'f' || 'A' <= c <= 'F'
  }

  lemma HexDigits(c: char)
    ensures IsHexDigit(c) <==> c in "0123456789abcdefABCDEF"
  {
    var digits := "0123456789abcdefABCDEF";
    if IsHexDigit(c) {
      var i := if c <= '9' then c as int - 48 else if c >= 'a' then c as int - 87 else c as int - 49;
      assert digits[i] == c;
    }
  }

  predicate IsHexString(s: string) {
    |s| > 0 && forall i :: 0 <= i < |s| ==> IsHexDigit(s[i])
  }

  /** A digest truncated to the tag body: always 28 hexadecimal digits. */
  ghost predicate IsDigest(digest: string -> string) {
    forall s {:trigger digest(s)} :: |digest(s)| == TEXT_BODY_MAX && IsHexString(digest(s))
  }

  function StripTagPrefix(s: string): string {
    if HasPrefix(s, "t-") then s[2..] else s
  }

  function TagFromLocal(digest: string -> string, id: string): string {
    var raw := TrimSpace(id);
    if raw == "" then "" else
      var body := StripTagPrefix(raw);
      "t-" + if |body| > TEXT_BODY_MAX then digest(body) else body
  }

  /** "" when the tag does not name its local ID. */
  function LocalFromTag(tag: string): string {
    var text := TrimSpace(tag);
    if !HasPrefix(text, "t-") then "" else
      var body := text[2..];
      if |body| == TEXT_BODY_MAX && IsHexString(body) then "" else body
  }

  /** The IDs a tag can be read back to: trimmed, non-empty, without the tag prefix. */
  predicate PlainId(id: string) {
    id != "" && Trimmed(id) && !HasPrefix(id, "t-")
  }

  /** The IDs a tag spells out, rather than replaces by a digest or hides as one. */
  predicate SpeltOut(id: string) {
    |id| <= TEXT_BODY_MAX && !(|id| == TEXT_BODY_MAX && IsHexString(id))
  }

  /** What a tag is made from: the trimmed ID without the tag prefix. */
  function BodyOf(id: string): string {
    StripTagPrefix(TrimSpace(id))
  }

  lemma TagBody(digest: string -> string, id: string)
    requires TrimSpace(id) != ""
    ensures var tag := TagFromLocal(digest, id);
      HasPrefix(tag, "t-") && tag[2..] == if |BodyOf(id)| > TEXT_BODY_MAX then digest(BodyOf(id)) else BodyOf(id)
  {
  }

  /** A body or its digest ends in a character that is no space. */
  lemma BodyEnds(digest: string -> string, id: string)
    requires IsDigest(digest) && TrimSpace(id) != ""
    ensures var rest := if |BodyOf(id)| > TEXT_BODY_MAX then digest(BodyOf(id)) else BodyOf(id);
      rest == "" || !IsSpace(rest[|rest| - 1])
  {
    var raw, body := TrimSpace(id), BodyOf(id);
    var d := digest(body);
    assert |d| == TEXT_BODY_MAX && IsHexDigit(d[|d| - 1]);
    assert body != "" ==> body[|body| - 1] == raw[|raw| - 1];
  }

  lemma PrefixedTrimmed(tag: string)
    requires HasPrefix(tag, "t-") && (tag[2..] == "" || !IsSpace(tag[2..][|tag[2..]| - 1]))
    ensures Trimmed(tag)
  {
    assert tag[0] == "t-"[0] && tag[1] == "t-"[1];
    if tag[2..] != "" { assert tag[2..][|tag| - 3] == tag[|tag| - 1]; }
  }

  lemma TagIsTrimmed(digest: string -> string, id: string)
    requires IsDigest(digest)
    ensures Trimmed(TagFromLocal(digest, id))
    ensures TrimSpace(id) != "" ==> TagFromLocal(digest, id) != ""
  {
    if TrimSpace(id) != "" {
      TagBody(digest, id);
      BodyEnds(digest, id);
      PrefixedTrimmed(TagFromLocal(digest, id));
    }
  }

  /** A tag is never longer than the exchange's thirty characters, and spells a body of up to twenty-eight. */
  lemma TagLength(digest: string -> string, id: string)
    requires IsDigest(digest) && TrimSpace(id) != ""
    ensures |TagFromLocal(digest, id)| <= 30
    ensures TagFromLocal(digest, id) == "t-" + (if |BodyOf(id)| <= 28 then BodyOf(id) else digest(BodyOf(id)))
    ensures TrimSpace(id) == (if HasPrefix(TrimSpace(id), "t-") then "t-" + BodyOf(id) else BodyOf(id))
  {
    TagBody(digest, id);
    var tag, raw := TagFromLocal(digest, id), TrimSpace(id);
    assert tag == tag[..2] + tag[2..] && tag[..2] == "t-";
    if HasPrefix(raw, "t-") { assert raw == raw[..2] + raw[2..] && raw[..2] == "t-"; }
  }

  /** A tag decodes to what follows its prefix; without the prefix, or spelling a full-length hexadecimal digest, to nothing. */
  lemma DecodesIff(tag: string)
    ensures var text := TrimSpace(tag);
      && (LocalFromTag(tag) != "" <==>
            |text| > 2 && text[0] == 't' && text[1] == '-' && !(|text| == 30 && forall i :: 2 <= i < 30 ==> IsHexDigit(text[i])))
      && (LocalFromTag(tag) != "" ==> text == "t-" + LocalFromTag(tag))
  {
    var text := TrimSpace(tag);
    if |text| >= 2 {
      var body := text[2..];
      assert text == text[..2] + body;
      assert text[..2] == [text[0], text[1]];
      assert forall i :: 2 <= i < |text| ==> text[i] == body[i - 2];
      assert forall i :: 0 <= i < |body| ==> body[i] == text[i + 2];
    }
  }

  /** Decoding the tag of any ID yields the body it was made from, or nothing if the tag does not spell it. */
  lemma DecodeOwnTag(digest: string -> string, id: string)
    requires IsDigest(digest)
    ensures LocalFromTag(TagFromLocal(digest, id)) == if SpeltOut(BodyOf(id)) then BodyOf(id) else ""
  {
    TagIsTrimmed(digest, id);
    if TrimSpace(id) != "" {
      TagBody(digest, id);
    }
  }

  /** Decoding yields the ID itself or nothing exactly if the tag does not spell a body, or spells the ID. */
  lemma DecodesToItselfIff(digest: string -> string, id: string)
    requires IsDigest(digest)
    ensures var decoded := LocalFromTag(TagFromLocal(digest, id));
      decoded == "" || decoded == id <==> BodyOf(id) == "" || BodyOf(id) == id || !SpeltOut(BodyOf(id))
  {
    DecodeOwnTag(digest, id);
  }

  /**
   * For a trimmed ID the decoded tag is another ID exactly if the ID has the tag prefix and what
   * follows it is not empty and spelt out.
   */
  lemma PrefixedIdDecodesToAnotherIff(digest: string -> string, id: string)
    requires IsDigest(digest) && id != "" && Trimmed(id)
    ensures var decoded := LocalFromTag(TagFromLocal(digest, id));
      decoded != "" && decoded != id <==> HasPrefix(id, "t-") && id != "t-" && SpeltOut(id[2..])
  {
    DecodesToItselfIff(digest, id);
    if HasPrefix(id, "t-") {
      assert BodyOf(id) == id[2..];
      assert id == "t-" <==> id[2..] == "" by { assert id == id[..2] + id[2..]; }
    }
  }
}
