/**
 * The message field: every backslash of the commit message doubled, and
 * nothing else changed or cut.
 */
module EscapeProperties {
  import opened GitMetadataUploader

  /** Reads a doubled backslash back as one; the inverse of EscapeBackslashes. */
  function UnescapeBackslashes(s: string): string {
    if s == [] then []
    else if |s| >= 2 && s[0] == '\\' && s[1] == '\\' then "\\" + UnescapeBackslashes(s[2..])
    else [s[0]] + UnescapeBackslashes(s[1..])
  }

  /** Unescaping the escaped message gives back the message. */
  lemma {:induction false} UnescapeEscape(s: string)
    ensures UnescapeBackslashes(EscapeBackslashes(s)) == s
  {
    if s != [] {
      UnescapeEscape(s[1..]);
      var tail := EscapeBackslashes(s[1..]);
      if s[0] == '\\' {
        assert EscapeBackslashes(s) == "\\\\" + tail;
        assert ("\\\\" + tail)[2..] == tail;
      } else {
        assert EscapeBackslashes(s) == [s[0]] + tail;
        assert ([s[0]] + tail)[1..] == tail;
      }
    }
  }

  /** Escaping is injective: distinct messages never share a message field. */
  lemma EscapeInjective(s: string, t: string)
    requires EscapeBackslashes(s) == EscapeBackslashes(t)
    ensures s == t
  {
    UnescapeEscape(s);
    UnescapeEscape(t);
  }

  /** The escaped message is one character longer per backslash: nothing is abbreviated. */
  lemma {:induction false} EscapeLength(s: string)
    ensures |EscapeBackslashes(s)| == |s| + multiset(s)['\\']
  {
    if s != [] {
      EscapeLength(s[1..]);
      assert s == [s[0]] + s[1..];
      assert multiset(s) == multiset([s[0]]) + multiset(s[1..]);
    }
  }

  /** A message without backslashes is written unchanged. */
  lemma {:induction false} EscapeWithoutBackslash(s: string)
    requires '\\' !in s
    ensures EscapeBackslashes(s) == s
  {
    if s != [] {
      assert s[0] != '\\';
      EscapeWithoutBackslash(s[1..]);
      assert s == [s[0]] + s[1..];
    }
  }

  /** Escaping distributes over concatenation, so every backslash is doubled wherever it stands. */
  lemma {:induction false} EscapeAppend(s: string, t: string)
    ensures EscapeBackslashes(s + t) == EscapeBackslashes(s) + EscapeBackslashes(t)
  {
    if s != [] {
      assert (s + t)[1..] == s[1..] + t;
      assert (s + t)[0] == s[0];
      EscapeAppend(s[1..], t);
    } else {
      assert s + t == t;
    }
  }
}
