/** The marker test on message bodies (src/peer_chat.py, nested_marker) against the meaning of its
    regular expression. */
module Markers {
  import opened Common
  import opened Envelope

  predicate AllSpaces(s: string) {
    forall i | 0 <= i < |s| :: IsSpace(s[i])
  }

  predicate AllSlashes(s: string) {
    forall i | 0 <= i < |s| :: s[i] == '/' || s[i] == '\\'
  }

  /** How a body contains the marker: an opening angle bracket, spaces, slashes of either kind, spaces,
      the tag name in any case, and no word character behind it. */
  datatype Place = Place(before: string, spaces: string, slashes: string, more: string, name: string, after: string)

  predicate Spells(body: string, p: Place, word: char -> bool) {
    && body == p.before + ['<'] + p.spaces + p.slashes + p.more + p.name + p.after
    && AllSpaces(p.spaces) && AllSlashes(p.slashes) && AllSpaces(p.more)
    && |p.name| == 21 && NameAt(p.name, TagName())
    && (p.after == "" || !word(p.after[0]))
  }

  lemma {:induction false} SpacesAreSkipped(spaces: string, rest: string)
    requires AllSpaces(spaces) && (rest == "" || !IsSpace(rest[0]))
    ensures SkipSpaces(spaces + rest) == rest
  {
    if spaces == "" {
      assert spaces + rest == rest;
    } else {
      assert (spaces + rest)[1..] == spaces[1..] + rest;
      SpacesAreSkipped(spaces[1..], rest);
    }
  }

  lemma {:induction false} SlashesAreSkipped(slashes: string, rest: string)
    requires AllSlashes(slashes) && (rest == "" || (rest[0] != '/' && rest[0] != '\\'))
    ensures SkipSlashes(slashes + rest) == rest
  {
    if slashes == "" {
      assert slashes + rest == rest;
    } else {
      assert (slashes + rest)[1..] == slashes[1..] + rest;
      SlashesAreSkipped(slashes[1..], rest);
    }
  }

  lemma {:induction false} SpacesInFront(s: string) returns (spaces: string)
    ensures s == spaces + SkipSpaces(s) && AllSpaces(spaces)
  {
    if s != "" && IsSpace(s[0]) {
      var more := SpacesInFront(s[1..]);
      spaces := [s[0]] + more;
      assert s == [s[0]] + s[1..];
    } else {
      spaces := "";
      assert s == spaces + s;
    }
  }

  lemma {:induction false} SlashesInFront(s: string) returns (slashes: string)
    ensures s == slashes + SkipSlashes(s) && AllSlashes(slashes)
  {
    if s != "" && (s[0] == '/' || s[0] == '\\') {
      var more := SlashesInFront(s[1..]);
      slashes := [s[0]] + more;
      assert s == [s[0]] + s[1..];
    } else {
      slashes := "";
      assert s == slashes + s;
    }
  }

  lemma NamesOpenWithC(name: string)
    requires |name| == 21 && NameAt(name, TagName())
    ensures !IsSpace(name[0]) && name[0] != '/' && name[0] != '\\'
  {
    assert TagName()[0] == 'c';
    assert SameLetter(name[0], TagName()[0]);
  }

  /** Skipping greedily finds the name wherever the expression matches. */
  lemma GreedyFinds(p: Place)
    requires AllSpaces(p.spaces) && AllSlashes(p.slashes) && AllSpaces(p.more)
    requires |p.name| == 21 && NameAt(p.name, TagName())
    ensures AfterBracket(['<'] + p.spaces + p.slashes + p.more + p.name + p.after) == p.name + p.after
  {
    hide TagName;
    NamesOpenWithC(p.name);
    var named := p.name + p.after;
    var s := ['<'] + p.spaces + p.slashes + p.more + p.name + p.after;
    assert s[1..] == p.spaces + (p.slashes + (p.more + named));
    hide NameAt, IsSpace;
    if p.slashes == "" {
      assert p.spaces + (p.slashes + (p.more + named)) == (p.spaces + p.more) + named;
      SpacesAreSkipped(p.spaces + p.more, named);
      SlashesAreSkipped("", named);
      assert "" + named == named;
      SpacesAreSkipped("", named);
    } else {
      SlashIsNoSpace(p.slashes[0]);
      SpacesAreSkipped(p.spaces, p.slashes + (p.more + named));
      SpaceIsNoSlash(p.more);
      SlashesAreSkipped(p.slashes, p.more + named);
      SpacesAreSkipped(p.more, named);
    }
  }

  lemma SlashIsNoSpace(c: char)
    requires c == '/' || c == '\\'
    ensures !IsSpace(c)
  {
  }

  lemma SpaceIsNoSlash(s: string)
    requires AllSpaces(s)
    ensures s == "" || (s[0] != '/' && s[0] != '\\')
  {
  }

  lemma SpellingIsFound(body: string, p: Place, word: char -> bool)
    requires Spells(body, p, word)
    ensures NestedMarker(body, word)
  {
    var s := ['<'] + p.spaces + p.slashes + p.more + p.name + p.after;
    hide TagName;
    assert body[|p.before|..] == s;
    GreedyFinds(p);
    NameIsLong();
    var t := p.name + p.after;
    assert NameAt(t, TagName()) by {
      hide IsSpace;
      forall i | 0 <= i < 21 ensures SameLetter(t[i], TagName()[i]) {
        assert t[i] == p.name[i];
      }
    }
    assert MarkerAt(body[|p.before|..], word);
  }

  /** What stands in front of the name at an opening angle bracket. */
  lemma BracketIsSpelled(s: string) returns (spaces: string, slashes: string, more: string)
    requires s != "" && s[0] == '<'
    ensures AllSpaces(spaces) && AllSlashes(slashes) && AllSpaces(more)
    ensures s == ['<'] + spaces + slashes + more + AfterBracket(s)
  {
    hide AllSpaces, AllSlashes, SkipSpaces, SkipSlashes;
    var first := SkipSpaces(s[1..]);
    var second := SkipSlashes(first);
    spaces := SpacesInFront(s[1..]);
    slashes := SlashesInFront(first);
    more := SpacesInFront(second);
    assert s == ['<'] + s[1..];
    assert ['<'] + (spaces + (slashes + (more + AfterBracket(s)))) == ['<'] + spaces + slashes + more + AfterBracket(s);
  }

  /** The name and what follows it. */
  lemma NameIsSpelled(t: string, word: char -> bool)
    requires NamedAt(t, word)
    ensures |t| >= 21 && NameAt(t[..21], TagName())
    ensures t[21..] == "" || !word(t[21..][0])
  {
    NameIsLong();
    hide TagName, SameLetter;
  }

  lemma FoundIsSpelled(body: string, word: char -> bool) returns (p: Place)
    requires NestedMarker(body, word)
    ensures Spells(body, p, word)
  {
    hide AllSpaces, AllSlashes, AfterBracket, NamedAt, NameAt, TagName;
    var i :| 0 <= i < |body| && MarkerAt(body[i..], word);
    var s := body[i..];
    var spaces, slashes, more := BracketIsSpelled(s);
    var t := AfterBracket(s);
    NameIsSpelled(t, word);
    p := Place(body[..i], spaces, slashes, more, t[..21], t[21..]);
    assert t == p.name + p.after;
    assert body == body[..i] + s;
    assert p.before + (['<'] + spaces + slashes + more + (p.name + p.after))
        == p.before + ['<'] + p.spaces + p.slashes + p.more + p.name + p.after;
  }

  /** A body is refused exactly if it contains the marker in the sense of the expression. */
  lemma MarkedExactly(body: string, word: char -> bool)
    ensures NestedMarker(body, word) <==> exists p :: Spells(body, p, word)
  {
    hide NestedMarker, Spells;
    if NestedMarker(body, word) {
      var p := FoundIsSpelled(body, word);
    }
    if exists p :: Spells(body, p, word) {
      var p :| Spells(body, p, word);
      SpellingIsFound(body, p, word);
    }
  }

  /** So no body can smuggle an envelope: what contains a printed one, whatever its attributes and its own
      body, is refused. */
  lemma EnvelopesDoNotNest(before: string, attrs: string, inner: string, after: string, word: char -> bool)
    requires !word(' ')
    ensures NestedMarker(before + PrintEnvelope(attrs, inner) + after, word)
  {
    hide NestedMarker, TagName, Opening, Closing;
    OpeningIs();
    var rest := [' '] + attrs + ">\n" + inner + Closing() + after;
    var body := before + PrintEnvelope(attrs, inner) + after;
    var p := Place(before, "", "", "", TagName(), rest);
    assert before + ['<'] + "" + "" + "" + TagName() + rest == before + ['<'] + TagName() + rest;
    assert body == before + ['<'] + TagName() + rest;
    assert Spells(body, p, word);
    SpellingIsFound(body, p, word);
  }

  lemma OpeningIs()
    ensures Opening() == ['<'] + TagName() + [' '] && |TagName()| == 21 && NameAt(TagName(), TagName())
  {
    NameIsLong();
  }
}
