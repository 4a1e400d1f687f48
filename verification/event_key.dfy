/** The event key of a division: the last `/`-separated segment of its URL,
    computed as `url.split('/').pop()`. */
module EventKey {

  const Slash := '/'

  /** `s.split(sep)` for a one-character separator: the pieces between the
      separators, in order; the empty string splits into one empty piece. */
  function Split(s: string, sep: char): (pieces: seq<string>)
    ensures |pieces| >= 1
    ensures forall p :: p in pieces ==> sep !in p
  {
    if |s| == 0 then [""]
    else
      var pieces' := Split(s[..|s| - 1], sep);
      var c := s[|s| - 1];
      if c == sep then pieces' + [""]
      else pieces'[..|pieces'| - 1] + [pieces'[|pieces'| - 1] + [c]]
  }

  /** `pieces.join(sep)`. */
  function Join(pieces: seq<string>, sep: char): string
    requires |pieces| >= 1
  {
    if |pieces| == 1 then pieces[0]
    else Join(pieces[..|pieces| - 1], sep) + [sep] + pieces[|pieces| - 1]
  }

  /** Splitting loses nothing: joining the pieces gives back the string. */
  lemma {:induction false} JoinSplit(s: string, sep: char)
    ensures Join(Split(s, sep), sep) == s
  {
    if |s| > 0 {
      var init := s[..|s| - 1];
      var c := s[|s| - 1];
      JoinSplit(init, sep);
      var pieces' := Split(init, sep);
      var pieces := Split(s, sep);
      assert s == init + [c];
      if c == sep {
        assert pieces == pieces' + [""];
        assert pieces[..|pieces| - 1] == pieces';
        assert Join(pieces, sep) == Join(pieces', sep) + [sep] + "";
      } else {
        var last := pieces'[|pieces'| - 1];
        assert pieces == pieces'[..|pieces'| - 1] + [last + [c]];
        if |pieces'| == 1 {
          assert Join(pieces', sep) == last;
        } else {
          var front := pieces'[..|pieces'| - 1];
          assert pieces[..|pieces| - 1] == front;
          assert Join(pieces', sep) == Join(front, sep) + [sep] + last;
          assert Join(pieces, sep) == Join(front, sep) + [sep] + (last + [c]);
        }
      }
    }
  }

  /** The last piece of a split is a suffix of the string, free of separators,
      and either the whole string or preceded by a separator. */
  lemma {:induction false} LastPieceIsSuffix(s: string, sep: char)
    ensures var pieces := Split(s, sep);
            var last := pieces[|pieces| - 1];
            && |last| <= |s|
            && s[|s| - |last|..] == last
            && (|last| == |s| || s[|s| - |last| - 1] == sep)
  {
    if |s| > 0 {
      var init := s[..|s| - 1];
      LastPieceIsSuffix(init, sep);
      var pieces' := Split(init, sep);
      var last' := pieces'[|pieces'| - 1];
      var c := s[|s| - 1];
      if c != sep {
        var pieces := Split(s, sep);
        assert pieces[|pieces| - 1] == last' + [c];
        assert s[|s| - |last'| - 1..] == s[|s| - |last'| - 1..|s| - 1] + [c];
        assert s[|s| - |last'| - 1..|s| - 1] == init[|init| - |last'|..];
      }
    }
  }

  /** The event key of a division URL. */
  function LastSegment(url: string): (key: string)
    ensures Slash !in key
  {
    var pieces := Split(url, Slash);
    pieces[|pieces| - 1]
  }

  /** The key is the longest separator-free suffix of the URL: it ends the URL,
      and it either is the whole URL or starts right after a `/`. */
  lemma LastSegmentIsFinalSegment(url: string)
    ensures var key := LastSegment(url);
            && Slash !in key
            && |key| <= |url|
            && url[|url| - |key|..] == key
            && (|key| == |url| || url[|url| - |key| - 1] == Slash)
  {
    LastPieceIsSuffix(url, Slash);
  }

  /** `".../event/2025cur"` has event key `"2025cur"`. */
  lemma LastSegmentAfterSlash(prefix: string, segment: string)
    requires Slash !in segment
    ensures LastSegment(prefix + [Slash] + segment) == segment
  {
    var url := prefix + [Slash] + segment;
    var key := LastSegment(url);
    LastSegmentIsFinalSegment(url);
    assert url[|prefix|] == Slash;
    assert url[|url| - |segment|..] == segment;
  }

  /** A URL without any `/` is its own event key. */
  lemma LastSegmentWithoutSlash(url: string)
    requires Slash !in url
    ensures LastSegment(url) == url
  {
    var key := LastSegment(url);
    LastSegmentIsFinalSegment(url);
    assert url[|url| - |url|..] == url;
  }
}
