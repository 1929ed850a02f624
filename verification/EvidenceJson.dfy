/** The JSON evidence wrapper: how it is written, and how a reader of JSON strings gets it back. */
module EvidenceJson {
  import opened Wrappers

  // ---------------------------------------------------------------- string escapes

  function HexDigit(v: nat): char
    requires v < 16
  {
    "0123456789abcdef"[v]
  }

  function HexValue(c: char): Option<nat> {
    if '0' <= c <= '9' then Some(c as nat - '0' as nat)
    else if 'a' <= c <= 'f' then Some(c as nat - 'a' as nat + 10)
    else None
  }

  /** One character as `json.dumps(..., ensure_ascii=False)` writes it. */
  function EscapeChar(c: char): (e: string)
    ensures 1 <= |e| <= 6
  {
    if c == '"' then ['\\', '"']
    else if c == '\\' then ['\\', '\\']
    else if c as int == 10 then ['\\', 'n']
    else if c as int == 13 then ['\\', 'r']
    else if c as int == 9 then ['\\', 't']
    else if c as int == 8 then ['\\', 'b']
    else if c as int == 12 then ['\\', 'f']
    else if (c as int) < 32 then ['\\', 'u', '0', '0', HexDigit(c as nat / 16), HexDigit(c as nat % 16)]
    else [c]
  }

  function Escape(s: string): string {
    if s == [] then [] else EscapeChar(s[0]) + Escape(s[1..])
  }

  /** The character an escape sequence stands for, and what follows it. */
  function ReadEscape(w: string): Option<(char, string)> {
    if |w| < 2 || w[0] != '\\' then None
    else if w[1] == '"' then Some(('"', w[2..]))
    else if w[1] == '\\' then Some(('\\', w[2..]))
    else if w[1] == 'n' then Some((10 as char, w[2..]))
    else if w[1] == 'r' then Some((13 as char, w[2..]))
    else if w[1] == 't' then Some((9 as char, w[2..]))
    else if w[1] == 'b' then Some((8 as char, w[2..]))
    else if w[1] == 'f' then Some((12 as char, w[2..]))
    else if w[1] == 'u' && |w| >= 6 && w[2] == '0' && w[3] == '0' && HexValue(w[4]).Some? && HexValue(w[5]).Some?
    then Some(((HexValue(w[4]).value * 16 + HexValue(w[5]).value) as char, w[6..]))
    else None
  }

  /** A JSON string up to its closing quote, and what follows it. */
  function ReadString(w: string): Option<(string, string)>
    decreases |w|
  {
    if w == [] || (w[0] as int) < 32 then None
    else if w[0] == '"' then Some(([], w[1..]))
    else
      var first := if w[0] == '\\' then ReadEscape(w) else Some((w[0], w[1..]));
      if first == None || |first.value.1| >= |w| then None
      else
        var more := ReadString(first.value.1);
        if more == None then None else Some(([first.value.0] + more.value.0, more.value.1))
  }

  lemma EscapeCharReads(c: char, rest: string)
    ensures var w := EscapeChar(c) + rest;
            && w[0] != '"' && w[0] as int >= 32
            && (if w[0] == '\\' then ReadEscape(w) else Some((w[0], w[1..]))) == Some((c, rest))
  {
    var e := EscapeChar(c);
    var w := e + rest;
    assert w[|e|..] == rest;
    if 32 > c as int && e[1] == 'u' {
      HexReads(c as nat);
    }
  }

  lemma HexReads(v: nat)
    requires v < 256
    ensures HexValue(HexDigit(v / 16)) == Some(v / 16) && HexValue(HexDigit(v % 16)) == Some(v % 16)
  {
    HexDigitReads(v / 16);
    HexDigitReads(v % 16);
  }

  lemma HexDigitReads(v: nat)
    requires v < 16
    ensures HexValue(HexDigit(v)) == Some(v)
  {
  }

  /** Whatever the text, the string that was written is the string that is read, and it ends where it was ended. */
  lemma {:induction false} EscapeReads(s: string, rest: string)
    ensures ReadString(Escape(s) + ['"'] + rest) == Some((s, rest))
  {
    var w := Escape(s) + ['"'] + rest;
    if s == [] {
      assert w[1..] == rest;
    } else {
      var after := Escape(s[1..]) + ['"'] + rest;
      assert w == EscapeChar(s[0]) + after;
      EscapeCharReads(s[0], after);
      EscapeReads(s[1..], rest);
      assert [s[0]] + s[1..] == s;
    }
  }

  /** No raw control character, hence no line break, is left in an escaped string. */
  lemma {:induction false} EscapeIsPrintable(s: string)
    ensures forall i :: 0 <= i < |Escape(s)| ==> Escape(s)[i] as int >= 32
  {
    if s != [] {
      EscapeIsPrintable(s[1..]);
      assert forall i :: 0 <= i < |EscapeChar(s[0])| ==> EscapeChar(s[0])[i] as int >= 32;
    }
  }

  /** A longer prefix is written longer by at least one character. */
  lemma {:induction false} EscapeGrows(s: string, k: nat)
    requires k < |s|
    ensures |Escape(s[..k + 1])| >= |Escape(s[..k])| + 1
    decreases k
  {
    if k == 0 {
      assert s[..1][1..] == [];
    } else {
      assert s[..k + 1][1..] == s[1..][..k] && s[..k][1..] == s[1..][..k - 1];
      EscapeGrows(s[1..], k - 1);
    }
  }

  // ---------------------------------------------------------------- the object

  datatype Evidence = Evidence(authority: string, unit: string, freshness: string, version: string, text: string,
                               title: string, truncated: bool)

  /**
   A string field: its key with an opening quote, the escaped value, the closing quote, and the rest of the object.
  */
  function Field(opening: string, value: string, rest: string): string {
    opening + Escape(value) + ['"'] + rest
  }

  function Ending(truncated: bool): string {
    if truncated then ",\"truncated\":true}" else ",\"truncated\":false}"
  }

  function Body(e: Evidence): string {
    Field("{\"authority\":\"", e.authority,
    Field(",\"evidence_unit_id\":\"", e.unit,
    Field(",\"freshness\":\"", e.freshness,
    Field(",\"source_version_id\":\"", e.version,
    Field(",\"text\":\"", e.text,
    Field(",\"title\":\"", e.title, Ending(e.truncated)))))))
  }

  /** `,"key":"` and the string it opens. */
  function ReadField(w: string, opening: string): Option<(string, string)> {
    if opening <= w then ReadString(w[|opening|..]) else None
  }

  function ReadBody(w: string): Option<Evidence> {
    var authority := ReadField(w, "{\"authority\":\"");
    if authority == None then None
    else
      var unit := ReadField(authority.value.1, ",\"evidence_unit_id\":\"");
      if unit == None then None
      else
        var freshness := ReadField(unit.value.1, ",\"freshness\":\"");
        if freshness == None then None
        else
          var version := ReadField(freshness.value.1, ",\"source_version_id\":\"");
          if version == None then None
          else
            var text := ReadField(version.value.1, ",\"text\":\"");
            if text == None then None
            else
              var title := ReadField(text.value.1, ",\"title\":\"");
              if title == None then None
              else if title.value.1 != Ending(true) && title.value.1 != Ending(false) then None
              else Some(Evidence(authority.value.0, unit.value.0, freshness.value.0, version.value.0, text.value.0,
                                 title.value.0, title.value.1 == Ending(true)))
  }

  lemma FieldReads(opening: string, value: string, rest: string)
    ensures ReadField(Field(opening, value, rest), opening) == Some((value, rest))
  {
    assert Field(opening, value, rest)[|opening|..] == Escape(value) + ['"'] + rest;
    EscapeReads(value, rest);
  }

  lemma EndingsDiffer()
    ensures Ending(true) != Ending(false)
  {
    assert Ending(true)[13] == 't' && Ending(false)[13] == 'f';
  }

  /** No field of untrusted text can end its string early or forge another field: the object reads back as written. */
  lemma BodyReads(e: Evidence)
    ensures ReadBody(Body(e)) == Some(e)
  {
    hide Field, ReadField, Ending;
    var title := Field(",\"title\":\"", e.title, Ending(e.truncated));
    var text := Field(",\"text\":\"", e.text, title);
    var version := Field(",\"source_version_id\":\"", e.version, text);
    var freshness := Field(",\"freshness\":\"", e.freshness, version);
    var unit := Field(",\"evidence_unit_id\":\"", e.unit, freshness);
    FieldReads("{\"authority\":\"", e.authority, unit);
    FieldReads(",\"evidence_unit_id\":\"", e.unit, freshness);
    FieldReads(",\"freshness\":\"", e.freshness, version);
    FieldReads(",\"source_version_id\":\"", e.version, text);
    FieldReads(",\"text\":\"", e.text, title);
    FieldReads(",\"title\":\"", e.title, Ending(e.truncated));
    EndingsDiffer();
  }

  predicate Printable(s: string) {
    forall i :: 0 <= i < |s| ==> s[i] as int >= 32
  }

  lemma FieldIsPrintable(opening: string, value: string, rest: string)
    requires Printable(opening) && Printable(rest)
    ensures Printable(Field(opening, value, rest))
  {
    hide Escape;
    EscapeIsPrintable(value);
  }

  /** The object is one line. */
  lemma BodyIsPrintable(e: Evidence)
    ensures Printable(Body(e))
  {
    hide Field;
    var title := Field(",\"title\":\"", e.title, Ending(e.truncated));
    var text := Field(",\"text\":\"", e.text, title);
    var version := Field(",\"source_version_id\":\"", e.version, text);
    var freshness := Field(",\"freshness\":\"", e.freshness, version);
    FieldIsPrintable(",\"title\":\"", e.title, Ending(e.truncated));
    FieldIsPrintable(",\"text\":\"", e.text, title);
    FieldIsPrintable(",\"source_version_id\":\"", e.version, text);
    FieldIsPrintable(",\"freshness\":\"", e.freshness, version);
    FieldIsPrintable(",\"evidence_unit_id\":\"", e.unit, freshness);
    FieldIsPrintable("{\"authority\":\"", e.authority, Field(",\"evidence_unit_id\":\"", e.unit, freshness));
  }

  lemma FieldSize(opening: string, value: string, rest: string)
    ensures |Field(opening, value, rest)| == |opening| + |Escape(value)| + 1 + |rest|
  {
  }

  lemma EscapeNothing()
    ensures Escape([]) == []
  {
  }

  /** The size of the object depends on the text and the flag as expected. */
  lemma BodySize(e: Evidence)
    ensures |Body(e)| == |Body(e.(text := [], truncated := true))| + |Escape(e.text)| + if e.truncated then 0 else 1
  {
    hide Field, Escape;
    EndingSizes();
    EscapeNothing();
    TextSize(e);
    TextSize(e.(text := [], truncated := true));
  }

  lemma EndingSizes()
    ensures |Ending(false)| == |Ending(true)| + 1
  {
  }

  lemma TextSize(e: Evidence)
    ensures |Body(e)| == 96 + |Escape(e.authority)| + |Escape(e.unit)| + |Escape(e.freshness)| + |Escape(e.version)|
                         + |Escape(e.text)| + |Escape(e.title)| + |Ending(e.truncated)|
  {
    hide Field, Escape, Ending;
    var title := Field(",\"title\":\"", e.title, Ending(e.truncated));
    var text := Field(",\"text\":\"", e.text, title);
    var version := Field(",\"source_version_id\":\"", e.version, text);
    var freshness := Field(",\"freshness\":\"", e.freshness, version);
    var unit := Field(",\"evidence_unit_id\":\"", e.unit, freshness);
    FieldSize("{\"authority\":\"", e.authority, unit);
    FieldSize(",\"evidence_unit_id\":\"", e.unit, freshness);
    FieldSize(",\"freshness\":\"", e.freshness, version);
    FieldSize(",\"source_version_id\":\"", e.version, text);
    FieldSize(",\"text\":\"", e.text, title);
    FieldSize(",\"title\":\"", e.title, Ending(e.truncated));
  }
}
