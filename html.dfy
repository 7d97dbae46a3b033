/** `html.replace(/<[^>]+>/g, '')`, the tag stripper the article lists use
    for their previews. Scanning left to right, a `<` starts a match when a
    `>` follows it with at least one character in between; the match runs to
    the first such `>` and is deleted. Anything else is kept as it is. */
module Html {
  import opened Common

  /** The index of the first `>` in `s`. */
  function FirstClose(s: string): (r: Option<nat>)
    ensures r.Some? ==> r.value < |s| && s[r.value] == '>' && forall j | 0 <= j < r.value :: s[j] != '>'
    ensures r.None? <==> '>' !in s
  {
    if |s| == 0 then None
    else if s[0] == '>' then Some(0)
    else match FirstClose(s[1..])
      case None => None
      case Some(k) => Some(k + 1)
  }

  /** The regex matches at the start of `s`: a `<`, then one or more
      characters other than `>`, then a `>`. */
  predicate OpensTag(s: string)
  {
    |s| > 0 && s[0] == '<' && FirstClose(s[1..]).Some? && FirstClose(s[1..]).value >= 1
  }

  /** Where the text after the tag at the start of `s` begins. */
  function TagEnd(s: string): (e: nat)
    requires OpensTag(s)
    ensures 2 < e <= |s| && s[e - 1] == '>'
    ensures forall j | 1 <= j < e - 1 :: s[j] != '>'
  {
    FirstClose(s[1..]).value + 2
  }

  function StripHtml(s: string): (r: string)
    ensures |r| <= |s|
    decreases |s|
  {
    if |s| == 0 then []
    else if OpensTag(s) then StripHtml(s[TagEnd(s)..])
    else [s[0]] + StripHtml(s[1..])
  }

  /** No position of `s` starts a match. */
  predicate TagFree(s: string)
  {
    forall i | 0 <= i < |s| :: !OpensTag(s[i..])
  }

  /** Text without `>` holds no tag and is returned unchanged. */
  lemma {:induction false} NoCloseUnchanged(s: string)
    requires '>' !in s
    ensures StripHtml(s) == s
    decreases |s|
  {
    if |s| > 0 {
      assert '>' !in s[1..];
      NoCloseUnchanged(s[1..]);
      assert [s[0]] + s[1..] == s;
    }
  }

  /** Text without `<` is returned unchanged. */
  lemma {:induction false} NoOpenUnchanged(s: string)
    requires '<' !in s
    ensures StripHtml(s) == s
    decreases |s|
  {
    if |s| > 0 {
      assert '<' !in s[1..];
      NoOpenUnchanged(s[1..]);
      assert [s[0]] + s[1..] == s;
    }
  }

  /** Text in which no tag starts is returned unchanged. */
  lemma {:induction false} TagFreeUnchanged(s: string)
    requires TagFree(s)
    ensures StripHtml(s) == s
    decreases |s|
  {
    if |s| > 0 {
      assert s[0..] == s;
      assert TagFree(s[1..]) by {
        forall i | 0 <= i < |s[1..]|
          ensures !OpensTag(s[1..][i..])
        {
          assert s[1..][i..] == s[i + 1..];
        }
      }
      TagFreeUnchanged(s[1..]);
      assert [s[0]] + s[1..] == s;
    }
  }

  /** What the stripper leaves holds no tag. */
  lemma {:induction false} StrippedTagFree(s: string)
    ensures TagFree(StripHtml(s))
    decreases |s|
  {
    if |s| > 0 {
      if OpensTag(s) {
        StrippedTagFree(s[TagEnd(s)..]);
      } else {
        StrippedTagFree(s[1..]);
        var t := StripHtml(s[1..]);
        var r := [s[0]] + t;
        forall i | 0 <= i < |r|
          ensures !OpensTag(r[i..])
        {
          if i > 0 {
            assert r[i..] == t[i - 1..];
          } else if s[0] == '<' {
            assert r[1..] == t;
            if FirstClose(s[1..]).None? {
              NoCloseUnchanged(s[1..]);
            } else {
              // the `>` right after the `<` survives as the next character
              assert s[1] == '>' && !OpensTag(s[1..]);
              assert t[0] == '>';
            }
          }
        }
      }
    }
  }

  /** Stripping twice is stripping once. */
  lemma StripIdempotent(s: string)
    ensures StripHtml(StripHtml(s)) == StripHtml(s)
  {
    StrippedTagFree(s);
    TagFreeUnchanged(StripHtml(s));
  }

  /** A tag at the start disappears with everything up to its `>`. */
  lemma TagRemoved(s: string, rest: string, inner: string)
    requires |inner| > 0 && '>' !in inner && s == "<" + inner + ">" + rest
    ensures StripHtml(s) == StripHtml(rest)
  {
    assert s[1..] == inner + ">" + rest;
    assert FirstClose(s[1..]) == Some(|inner|) by {
      var t := s[1..];
      assert t[|inner|] == '>';
      forall j | 0 <= j < |inner|
        ensures t[j] != '>'
      {
        assert t[j] == inner[j];
      }
      FirstCloseAt(t, |inner|);
    }
    assert s[TagEnd(s)..] == rest;
  }

  lemma FirstCloseAt(s: string, k: nat)
    requires k < |s| && s[k] == '>' && forall j | 0 <= j < k :: s[j] != '>'
    ensures FirstClose(s) == Some(k)
  {
    var r := FirstClose(s);
    assert r.Some?;
  }
}
