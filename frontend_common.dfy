/** Rules and text helpers shared by the React pages: the react-hook-form
    field rules, the `||` fallbacks of rendered values, and the HTML tag
    stripping done with `replace(/<[^>]*>/g, '')`. */
module FormRules {
  import opened Seqs
  import opened Text

  /** react-hook-form `required` on a text field: the empty string fails,
      whitespace does not. */
  predicate Required(v: string)
  {
    v != ""
  }

  /** react-hook-form `minLength`: counts raw characters. */
  predicate MinLength(v: string, n: nat)
  {
    |v| >= n
  }

  /** The pattern `/^\S+@\S+$/i`, decided directly: no whitespace anywhere
      and an `@` that is neither the first nor the last character. */
  function EmailPattern(s: string): (ok: bool)
    ensures ok <==> (NoSpace(s) && exists i :: 0 < i < |s| - 1 && s[i] == '@')
  {
    if |s| < 3 || !NoSpace(s) then false
    else
      var inner := s[1..|s| - 1];
      if '@' in inner then
        var k :| 0 <= k < |inner| && inner[k] == '@';
        assert s[k + 1] == '@';
        true
      else
        assert forall i :: 0 < i < |s| - 1 ==> s[i] == inner[i - 1];
        false
  }

  /** The `@` may repeat: the pattern's `\S+` parts can themselves hold `@`. */
  lemma EmailPatternExamples()
    ensures EmailPattern("a@b") && EmailPattern("a@b@c")
    ensures !EmailPattern("@b") && !EmailPattern("a@") && !EmailPattern("a @b") && !EmailPattern("ab")
  {
    assert "a@b"[1] == '@';
    assert "a@b@c"[1] == '@';
    assert "a @b"[1] == ' ';
  }

  /** `value || fallback` on a fetched string: a missing or empty value
      shows the fallback. */
  function OrElse(v: Option<string>, fallback: string): (shown: string)
    ensures v.Some? && v.value != "" ==> shown == v.value
    ensures v.None? || v.value == "" ==> shown == fallback
  {
    if v.Some? && v.value != "" then v.value else fallback
  }

  /** `count || fallback` on a fetched number: a missing count or 0 shows
      the fallback, any other count its decimal numeral. */
  function CountOrElse(v: Option<nat>, fallback: string): (shown: string)
    ensures v.Some? && v.value != 0 ==> ParseInt(shown) == Some(v.value)
    ensures v.None? || v.value == 0 ==> shown == fallback
  {
    if v.Some? && v.value != 0 then
      ParseIntOfNumeral(v.value);
      NatToString(v.value)
    else fallback
  }
}

module PageText {
  import opened Seqs
  import opened Text

  /** No `<` is followed, anywhere later, by a `>`: nothing is left that the
      tag pattern could match. */
  predicate TagFree(s: string)
  {
    forall i, j :: 0 <= i < j < |s| && s[i] == '<' ==> s[j] != '>'
  }

  /** `s.replace(/<[^>]*>/g, '')`: scanning from the left, each `<` that has
      a `>` somewhere after it is removed together with everything up to
      and including the first such `>`; a `<` with no `>` after it stays. */
  function StripTags(s: string): (r: string)
    ensures |r| <= |s|
    ensures forall c :: c in r ==> c in s
    ensures TagFree(r)
    ensures r == s <==> TagFree(s)
    decreases |s|
  {
    if s == [] then []
    else if s[0] == '<' && '>' in s then
      var j := IndexOf(s, '>');
      assert !TagFree(s) by { assert s[0] == '<' && s[j] == '>'; }
      StripTags(s[j + 1..])
    else
      var rest := StripTags(s[1..]);
      assert forall c :: c in s[1..] ==> c in s;
      TagFreeCons(s);
      if s[0] == '<' then
        assert '>' !in rest;
        [s[0]] + rest
      else
        assert forall j :: 0 < j < |[s[0]] + rest| ==> ([s[0]] + rest)[j] == rest[j - 1];
        [s[0]] + rest
  }

  /** Dropping a first character that cannot open a tag, or that has no
      `>` after it, does not change whether the text is tag-free. */
  lemma TagFreeCons(s: string)
    requires s != [] && (s[0] != '<' || '>' !in s)
    ensures TagFree(s) <==> TagFree(s[1..])
  {
    if TagFree(s) {
      forall i, j | 0 <= i < j < |s| - 1 && s[1..][i] == '<' ensures s[1..][j] != '>' {
        assert s[1..][i] == s[i + 1] && s[1..][j] == s[j + 1];
      }
    }
    if TagFree(s[1..]) {
      forall i, j | 0 <= i < j < |s| && s[i] == '<' ensures s[j] != '>' {
        if i == 0 {
          assert s[j] in s;
        } else {
          assert s[i] == s[1..][i - 1] && s[j] == s[1..][j - 1];
        }
      }
    }
  }

  /** Cutting tag-free text short keeps it tag-free. */
  lemma TagFreePrefix(s: string, n: nat)
    requires TagFree(s) && n <= |s|
    ensures TagFree(s[..n])
  {
    forall i, j | 0 <= i < j < n && s[..n][i] == '<' ensures s[..n][j] != '>' {
      assert s[..n][i] == s[i] && s[..n][j] == s[j];
    }
  }

  /** Text without `<` comes through unchanged. */
  lemma {:induction false} StripTagsPlain(s: string)
    requires '<' !in s
    ensures StripTags(s) == s
    decreases |s|
  {
    if s != [] {
      assert '<' !in s[1..];
      StripTagsPlain(s[1..]);
    }
  }

  /** Text before the first `<` is kept as it is, and the rest is stripped
      on its own. */
  lemma {:induction false} StripTagsKeepsPlainPrefix(a: string, b: string)
    requires '<' !in a
    ensures StripTags(a + b) == a + StripTags(b)
    decreases |a|
  {
    if a == [] {
      assert a + b == b;
    } else {
      var s := a + b;
      assert s[0] == a[0] && s[1..] == a[1..] + b;
      assert '<' !in a[1..];
      StripTagsKeepsPlainPrefix(a[1..], b);
    }
  }

  /** A complete tag after plain text is removed, the text before it kept. */
  lemma StripTagsAroundTag(a: string, tag: string, b: string)
    requires '<' !in a && '>' !in tag
    ensures StripTags(a + "<" + tag + ">" + b) == a + StripTags(b)
  {
    assert a + "<" + tag + ">" + b == a + ("<" + tag + ">" + b);
    StripTagsKeepsPlainPrefix(a, "<" + tag + ">" + b);
    StripTagsLeadingTag(tag, b);
  }

  lemma StripTagsClosingExample()
    ensures StripTags("c</i>d") == "cd"
  {
    assert "c</i>d" == "c" + "<" + "/i" + ">" + "d";
    StripTagsAroundTag("c", "/i", "d");
    StripTagsPlain("d");
  }

  /** The text between tags is kept: `"ab<i>c</i>d"` becomes `"abcd"`. */
  lemma StripTagsExample()
    ensures StripTags("ab<i>c</i>d") == "abcd"
  {
    assert "ab<i>c</i>d" == "ab" + "<" + "i" + ">" + "c</i>d";
    StripTagsAroundTag("ab", "i", "c</i>d");
    StripTagsClosingExample();
  }

  /** A leading tag disappears in full. */
  lemma StripTagsLeadingTag(tag: string, rest: string)
    requires '>' !in tag
    ensures StripTags("<" + tag + ">" + rest) == StripTags(rest)
  {
    var s := "<" + tag + ">" + rest;
    assert s[1 + |tag|] == '>';
    assert '>' !in s[..1 + |tag|];
    assert IndexOf(s, '>') == 1 + |tag|;
    assert s[1 + |tag| + 1..] == rest;
  }
}
