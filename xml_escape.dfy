/**
 * The report's escaping of free text (`string_to_xml`): four global
 * substitutions applied one after the other, `&` first, then `'`, `<` and
 * the newline character.
 */
module XmlEscape {

  /** `s.gsub(/c/, rep)` for a one-character pattern. */
  function ReplaceAll(s: string, c: char, rep: string): (r: string)
    ensures c !in s ==> r == s
    ensures c !in rep ==> c !in r
    ensures |rep| >= 1 ==> |r| >= |s|
  {
    if s == [] then []
    else (if s[0] == c then rep else [s[0]]) + ReplaceAll(s[1..], c, rep)
  }

  /** The source's substitution chain, in its order. */
  function StringToXml(s: string): (r: string)
    ensures |r| >= |s|
    ensures '\n' !in r
  {
    ReplaceAll(ReplaceAll(ReplaceAll(ReplaceAll(s, '&', "&amp;"), '\'', "&quot;"), '<', "&lt;"), '\n', "&#xa;")
  }

  /** The four characters the chain rewrites. */
  predicate Special(c: char) {
    c == '&' || c == '\'' || c == '<' || c == '\n'
  }

  /** Reference definition: each character is escaped on its own. */
  function EscapeChar(c: char): string {
    if c == '&' then "&amp;"
    else if c == '\'' then "&quot;"
    else if c == '<' then "&lt;"
    else if c == '\n' then "&#xa;"
    else [c]
  }

  function Escape(s: string): string {
    if s == [] then [] else EscapeChar(s[0]) + Escape(s[1..])
  }

  /** The characters an escaped text never contains: the attribute quote, a tag opener, a line break. */
  predicate Inert(s: string) {
    forall i :: 0 <= i < |s| ==> s[i] != '\'' && s[i] != '<' && s[i] != '\n'
  }

  /** Decoding of the four entities the chain produces; every other character stands for itself. */
  function Unescape(s: string): string
    decreases |s|
  {
    if s == [] then []
    else if |s| >= 5 && s[..5] == "&amp;" then "&" + Unescape(s[5..])
    else if |s| >= 6 && s[..6] == "&quot;" then "'" + Unescape(s[6..])
    else if |s| >= 4 && s[..4] == "&lt;" then "<" + Unescape(s[4..])
    else if |s| >= 5 && s[..5] == "&#xa;" then "\n" + Unescape(s[5..])
    else [s[0]] + Unescape(s[1..])
  }

  lemma {:induction false} ReplaceAllAppend(a: string, b: string, c: char, rep: string)
    ensures ReplaceAll(a + b, c, rep) == ReplaceAll(a, c, rep) + ReplaceAll(b, c, rep)
  {
    if a == [] {
      assert a + b == b;
    } else {
      var head := if a[0] == c then rep else [a[0]];
      assert (a + b)[0] == a[0];
      assert (a + b)[1..] == a[1..] + b;
      ReplaceAllAppend(a[1..], b, c, rep);
      calc {
        ReplaceAll(a + b, c, rep);
        head + ReplaceAll(a[1..] + b, c, rep);
        head + (ReplaceAll(a[1..], c, rep) + ReplaceAll(b, c, rep));
        (head + ReplaceAll(a[1..], c, rep)) + ReplaceAll(b, c, rep);
      }
    }
  }

  /** One character through the chain: the later steps leave the earlier steps' entities alone. */
  lemma ChainOnChar(c: char)
    ensures StringToXml([c]) == EscapeChar(c)
  {
    var s1 := ReplaceAll([c], '&', "&amp;");
    assert s1 == (if c == '&' then "&amp;" else [c]) + ReplaceAll([], '&', "&amp;");
  }

  /** The four-step substitution chain is the same as escaping character by character. */
  lemma {:induction false} StringToXmlIsCharwise(s: string)
    ensures StringToXml(s) == Escape(s)
  {
    if s != [] {
      var rest := s[1..];
      assert s == [s[0]] + rest;
      ReplaceAllAppend([s[0]], rest, '&', "&amp;");
      var a1, b1 := ReplaceAll([s[0]], '&', "&amp;"), ReplaceAll(rest, '&', "&amp;");
      ReplaceAllAppend(a1, b1, '\'', "&quot;");
      var a2, b2 := ReplaceAll(a1, '\'', "&quot;"), ReplaceAll(b1, '\'', "&quot;");
      ReplaceAllAppend(a2, b2, '<', "&lt;");
      var a3, b3 := ReplaceAll(a2, '<', "&lt;"), ReplaceAll(b2, '<', "&lt;");
      ReplaceAllAppend(a3, b3, '\n', "&#xa;");
      ChainOnChar(s[0]);
      StringToXmlIsCharwise(rest);
    }
  }

  /** The escaped text contains no `'`, no `<` and no newline. */
  lemma {:induction false} EscapedIsInert(s: string)
    ensures Inert(StringToXml(s))
  {
    StringToXmlIsCharwise(s);
    EscapeInert(s);
  }

  lemma {:induction false} EscapeInert(s: string)
    ensures Inert(Escape(s))
  {
    if s != [] {
      EscapeInert(s[1..]);
      var e, t := EscapeChar(s[0]), Escape(s[1..]);
      assert Escape(s) == e + t;
      forall i | 0 <= i < |e + t|
        ensures (e + t)[i] != '\'' && (e + t)[i] != '<' && (e + t)[i] != '\n'
      {
        if i >= |e| {
          assert (e + t)[i] == t[i - |e|];
        }
      }
    }
  }

  /** Decoding the four entities recovers the original text: `&` is rewritten first, so no entity is escaped twice. */
  lemma {:induction false} UnescapeStringToXml(s: string)
    ensures Unescape(StringToXml(s)) == s
  {
    StringToXmlIsCharwise(s);
    UnescapeEscape(s);
  }

  lemma {:induction false} UnescapeEscape(s: string)
    ensures Unescape(Escape(s)) == s
  {
    if s != [] {
      assert Escape(s) == EscapeChar(s[0]) + Escape(s[1..]);
      UnescapeCons(s[0], Escape(s[1..]));
      UnescapeEscape(s[1..]);
      assert s == [s[0]] + s[1..];
    }
  }

  /** Decoding one escaped character in front of any text. */
  lemma UnescapeCons(c: char, t: string)
    ensures Unescape(EscapeChar(c) + t) == [c] + Unescape(t)
  {
    var e := EscapeChar(c) + t;
    if c == '&' {
      assert e[..5] == "&amp;" && e[5..] == t;
    } else if c == '\'' {
      UnescapeQuot(t);
    } else if c == '<' {
      UnescapeLt(t);
    } else if c == '\n' {
      UnescapeNewline(t);
    } else {
      UnescapePlain(c, t);
    }
  }

  lemma UnescapeQuot(t: string)
    ensures Unescape("&quot;" + t) == "'" + Unescape(t)
  {
    var e := "&quot;" + t;
    assert e[..6] == "&quot;" && e[6..] == t;
    assert e[..5][1] == 'q';
  }

  lemma UnescapeLt(t: string)
    ensures Unescape("&lt;" + t) == "<" + Unescape(t)
  {
    var e := "&lt;" + t;
    assert e[..4] == "&lt;" && e[4..] == t;
    assert e[1] == 'l';
  }

  lemma UnescapeNewline(t: string)
    ensures Unescape("&#xa;" + t) == "\n" + Unescape(t)
  {
    var e := "&#xa;" + t;
    assert e[..5] == "&#xa;" && e[5..] == t;
    assert e[..5][1] == '#';
    assert e[..4][1] == '#';
  }

  lemma UnescapePlain(c: char, t: string)
    requires !Special(c)
    ensures Unescape([c] + t) == [c] + Unescape(t)
  {
    var e := [c] + t;
    assert e[0] == c && e[1..] == t;
    assert |e| >= 4 ==> e[..4][0] == c;
    assert |e| >= 5 ==> e[..5][0] == c;
    assert |e| >= 6 ==> e[..6][0] == c;
  }

  /** Escaping never shortens the text, and it keeps the length exactly when nothing needs escaping. */
  lemma {:induction false} EscapeLength(s: string)
    ensures |Escape(s)| >= |s|
    ensures |Escape(s)| == |s| <==> forall i :: 0 <= i < |s| ==> !Special(s[i])
  {
    if s != [] {
      EscapeLength(s[1..]);
      assert Escape(s) == EscapeChar(s[0]) + Escape(s[1..]);
      if forall i :: 0 <= i < |s| ==> !Special(s[i]) {
        assert forall i :: 0 <= i < |s[1..]| ==> !Special(s[1..][i]) by {
          forall i | 0 <= i < |s[1..]| ensures !Special(s[1..][i]) {
            assert s[1..][i] == s[i + 1];
          }
        }
      } else if !Special(s[0]) {
        var i :| 0 <= i < |s| && Special(s[i]);
        assert i > 0 && s[1..][i - 1] == s[i];
      }
    }
  }

  /** The text comes back unchanged exactly when it holds none of `&`, `'`, `<` and newline. */
  lemma StringToXmlFixpoint(s: string)
    ensures StringToXml(s) == s <==> forall i :: 0 <= i < |s| ==> !Special(s[i])
  {
    StringToXmlIsCharwise(s);
    EscapeLength(s);
    if forall i :: 0 <= i < |s| ==> !Special(s[i]) {
      EscapeIdentity(s);
    }
  }

  lemma {:induction false} EscapeIdentity(s: string)
    requires forall i :: 0 <= i < |s| ==> !Special(s[i])
    ensures Escape(s) == s
  {
    if s != [] {
      assert !Special(s[0]);
      forall i | 0 <= i < |s[1..]| ensures !Special(s[1..][i]) {
        assert s[1..][i] == s[i + 1];
      }
      EscapeIdentity(s[1..]);
      assert s == [s[0]] + s[1..];
    }
  }
}
