/**
 * The derivations of App.tsx: the embed URL of the live stream, the lines of
 * the news ticker, the current starters and the latest calculated matchday.
 */
module App {
  import opened Wrappers
  import opened Types

  // ---------------------------------------------------------------------------
  // getYouTubeEmbedUrl and its regular expression
  //   ^.*(youtu.be\/|v\/|u\/\w\/|embed\/|watch\?v=|\&v=)([^#\&\?]*).*
  // ---------------------------------------------------------------------------

  const EmbedPrefix := "https://www.youtube.com/embed/"
  const EmbedSuffix := "?autoplay=1&mute=1"

  /** The characters `.` does not match. */
  predicate IsLineTerminator(c: char) {
    c == '\n' || c == '\r' || c == '\U{2028}' || c == '\U{2029}'
  }

  /** `\w` */
  predicate IsWordChar(c: char) {
    ('a' <= c <= 'z') || ('A' <= c <= 'Z') || ('0' <= c <= '9') || c == '_'
  }

  /** The characters the captured id stops at. */
  predicate IsIdStop(c: char) {
    c == '#' || c == '&' || c == '?'
  }

  /** How far `^.*` can reach: the index of the first line terminator, or the length. */
  function LineEnd(s: string): (r: nat)
    ensures r <= |s|
    ensures forall i :: 0 <= i < r ==> !IsLineTerminator(s[i])
    ensures r < |s| ==> IsLineTerminator(s[r])
  {
    if |s| == 0 || IsLineTerminator(s[0]) then 0 else 1 + LineEnd(s[1..])
  }

  /** The length of the alternative of the first group that matches at `k`, or 0 when none does.
      The six alternatives begin with six different characters, so at most one can match;
      the `.` of `youtu.be` matches any character but a line terminator. */
  function MarkerLength(s: string, k: nat): (r: nat)
    ensures r != 0 ==> k + r <= |s|
    ensures r != 0 ==> r in {9, 2, 4, 6, 8, 3}
  {
    if k >= |s| then 0
    // youtu.be/
    else if s[k] == 'y' then
      if k + 9 <= |s| && s[k + 1] == 'o' && s[k + 2] == 'u' && s[k + 3] == 't' && s[k + 4] == 'u'
         && !IsLineTerminator(s[k + 5]) && s[k + 6] == 'b' && s[k + 7] == 'e' && s[k + 8] == '/' then 9 else 0
    // v/
    else if s[k] == 'v' then
      if k + 2 <= |s| && s[k + 1] == '/' then 2 else 0
    // u/\w/
    else if s[k] == 'u' then
      if k + 4 <= |s| && s[k + 1] == '/' && IsWordChar(s[k + 2]) && s[k + 3] == '/' then 4 else 0
    // embed/
    else if s[k] == 'e' then
      if k + 6 <= |s| && s[k + 1] == 'm' && s[k + 2] == 'b' && s[k + 3] == 'e' && s[k + 4] == 'd'
         && s[k + 5] == '/' then 6 else 0
    // watch?v=
    else if s[k] == 'w' then
      if k + 8 <= |s| && s[k + 1] == 'a' && s[k + 2] == 't' && s[k + 3] == 'c' && s[k + 4] == 'h'
         && s[k + 5] == '?' && s[k + 6] == 'v' && s[k + 7] == '=' then 8 else 0
    // &v=
    else if s[k] == '&' then
      if k + 3 <= |s| && s[k + 1] == 'v' && s[k + 2] == '=' then 3 else 0
    else 0
  }

  /** The last position at or below `hi` where the first group matches: greedy `^.*` backtracks
      from the longest prefix it can take. */
  function LastMarker(s: string, hi: nat): (r: Option<nat>)
    requires hi <= |s|
    ensures r.Some? ==> r.value <= hi && MarkerLength(s, r.value) != 0
    ensures r.Some? ==> forall k :: r.value < k <= hi ==> MarkerLength(s, k) == 0
    ensures r.None? <==> forall k :: 0 <= k <= hi ==> MarkerLength(s, k) == 0
  {
    if MarkerLength(s, hi) != 0 then Some(hi)
    else if hi == 0 then None
    else LastMarker(s, hi - 1)
  }

  /** `([^#\&\?]*)`: the longest prefix of `t` without '#', '&' or '?'. */
  function TakeId(t: string): (id: string)
    ensures |id| <= |t| && id == t[..|id|]
    ensures forall i :: 0 <= i < |id| ==> !IsIdStop(id[i])
    ensures |id| < |t| ==> IsIdStop(t[|id|])
  {
    if |t| == 0 || IsIdStop(t[0]) then "" else [t[0]] + TakeId(t[1..])
  }

  /** A successful match: where the first group starts, its length, and the second group. */
  datatype RegexMatch = RegexMatch(markerStart: nat, markerLength: nat, id: string)

  /** `url.match(regExp)`. */
  function MatchUrl(url: string): (r: Option<RegexMatch>)
    ensures r.None? <==> forall k :: 0 <= k <= LineEnd(url) ==> MarkerLength(url, k) == 0
    ensures r.Some? ==>
      var m := r.value;
      && m.markerStart <= LineEnd(url)
      && m.markerLength == MarkerLength(url, m.markerStart) != 0
      && (forall k :: m.markerStart < k <= LineEnd(url) ==> MarkerLength(url, k) == 0)
      && m.markerStart + m.markerLength + |m.id| <= |url|
      && m.id == url[m.markerStart + m.markerLength..m.markerStart + m.markerLength + |m.id|]
      && (forall i :: 0 <= i < |m.id| ==> !IsIdStop(m.id[i]))
      && (m.markerStart + m.markerLength + |m.id| < |url| ==> IsIdStop(url[m.markerStart + m.markerLength + |m.id|]))
  {
    match LastMarker(url, LineEnd(url))
    case None => None
    case Some(k) =>
      var len := MarkerLength(url, k);
      var id := TakeId(url[k + len..]);
      assert url[k + len..][..|id|] == url[k + len..k + len + |id|];
      Some(RegexMatch(k, len, id))
  }

  /** `getYouTubeEmbedUrl`: the embed URL of the video whose id the expression captures, provided
      the id has exactly 11 characters; null for an absent or empty URL and for every other URL. */
  function YouTubeEmbedUrl(url: Option<string>): (r: Option<string>)
    ensures url.None? || url.value == "" ==> r.None?
    ensures r.Some? <==> url.Some? && MatchUrl(url.value).Some? && |MatchUrl(url.value).value.id| == 11
    ensures r.Some? ==> r.value == EmbedPrefix + MatchUrl(url.value).value.id + EmbedSuffix
  {
    if url.None? || url.value == "" then None
    else match MatchUrl(url.value)
      case Some(m) => if |m.id| == 11 then Some(EmbedPrefix + m.id + EmbedSuffix) else None
      case None => None
  }

  /** The characters of a video id: `\w` and '-'. */
  predicate IsVideoIdChar(c: char) {
    IsWordChar(c) || c == '-'
  }

  /** Whether a marker matches at `|a| + j` in `a + b` depends on `b` alone. */
  lemma MarkerLengthShift(a: string, b: string, j: nat)
    ensures MarkerLength(a + b, |a| + j) == MarkerLength(b, j)
  {
    var s := a + b;
    forall i | |a| + j <= i < |s| ensures s[i] == b[i - |a|] {
    }
  }

  /** `^.*` passes over text without line terminators. */
  lemma {:induction false} LineEndShift(a: string, b: string)
    requires forall i :: 0 <= i < |a| ==> !IsLineTerminator(a[i])
    ensures LineEnd(a + b) == |a| + LineEnd(b)
  {
    if |a| > 0 {
      assert (a + b)[1..] == a[1..] + b;
      LineEndShift(a[1..], b);
    } else {
      assert a + b == b;
    }
  }

  /** No alternative of the first group matches inside the suffix of an embed URL. */
  lemma EmbedSuffixHasNoMarker(j: nat)
    ensures MarkerLength(EmbedSuffix, j) == 0
  {
  }

  /** No alternative of the first group matches inside a video id followed by the suffix: every
      alternative but the last two needs a '/', and there is none; the last two need "v=" after a
      '?' or '&', which the suffix does not have. */
  lemma IdHasNoMarker(id: string, j: nat)
    requires |id| == 11 && forall i :: 0 <= i < |id| ==> IsVideoIdChar(id[i])
    ensures MarkerLength(id + EmbedSuffix, j) == 0
  {
    var t := id + EmbedSuffix;
    if j >= 11 {
      MarkerLengthShift(id, EmbedSuffix, j - 11);
      EmbedSuffixHasNoMarker(j - 11);
    } else {
      assert forall i :: 0 <= i < 11 ==> t[i] == id[i];
      assert forall i :: 11 <= i < 29 ==> t[i] == EmbedSuffix[i - 11];
      assert forall i :: 0 <= i < 11 ==> t[i] != '/' && t[i] != '=' && t[i] != '?';
      assert t[11] == '?' && t[12] == 'a';
    }
  }

  /** The fixed parts of an embed URL hold no line terminator. */
  lemma EmbedLiteralsAreOneLine()
    ensures forall i :: 0 <= i < |EmbedPrefix| ==> !IsLineTerminator(EmbedPrefix[i])
    ensures forall i :: 0 <= i < |EmbedSuffix| ==> !IsLineTerminator(EmbedSuffix[i])
  {
  }

  /** An embed URL has no line terminator, so `^.*` can reach its end. */
  lemma EmbedUrlIsOneLine(id: string)
    requires |id| == 11 && forall i :: 0 <= i < |id| ==> IsVideoIdChar(id[i])
    ensures LineEnd(EmbedPrefix + id + EmbedSuffix) == |EmbedPrefix + id + EmbedSuffix| == 59
  {
    EmbedLiteralsAreOneLine();
    var a := EmbedPrefix + id;
    assert forall i :: 0 <= i < |a| ==> !IsLineTerminator(a[i]) by {
      forall i | 0 <= i < |a| ensures !IsLineTerminator(a[i]) {
        if i >= 30 { assert a[i] == id[i - 30]; } else { assert a[i] == EmbedPrefix[i]; }
      }
    }
    LineEndShift(a, EmbedSuffix);
    LineEndShift(EmbedSuffix, "");
    assert EmbedSuffix + "" == EmbedSuffix;
  }

  /** An embed URL of an 11-character video id is recognised, and converts to itself. */
  lemma EmbedUrlIsFixedPoint(id: string)
    requires |id| == 11 && forall i :: 0 <= i < |id| ==> IsVideoIdChar(id[i])
    ensures MatchUrl(EmbedPrefix + id + EmbedSuffix) == Some(RegexMatch(24, 6, id))
    ensures YouTubeEmbedUrl(Some(EmbedPrefix + id + EmbedSuffix)) == Some(EmbedPrefix + id + EmbedSuffix)
  {
    var url := EmbedPrefix + id + EmbedSuffix;
    assert url == EmbedPrefix + (id + EmbedSuffix);
    EmbedUrlIsOneLine(id);
    assert url[24] == 'e' && url[25] == 'm' && url[26] == 'b' && url[27] == 'e' && url[28] == 'd' && url[29] == '/';
    assert MarkerLength(url, 24) == 6;
    forall k | 24 < k <= 59 ensures MarkerLength(url, k) == 0 {
      if k < 30 {
        assert url[k] == EmbedPrefix[k];
        if k < 29 { assert url[k + 1] == EmbedPrefix[k + 1]; }
      } else {
        MarkerLengthShift(EmbedPrefix, id + EmbedSuffix, k - 30);
        IdHasNoMarker(id, k - 30);
      }
    }
    var last := LastMarker(url, 59);
    assert last == Some(24);
    assert url[30..] == id + EmbedSuffix;
    TakeIdStopsAt(id, EmbedSuffix);
  }

  /** The id run stops exactly at a stop character that follows stop-free text. */
  lemma {:induction false} TakeIdStopsAt(a: string, b: string)
    requires forall i :: 0 <= i < |a| ==> !IsIdStop(a[i])
    requires |b| > 0 && IsIdStop(b[0])
    ensures TakeId(a + b) == a
  {
    if |a| > 0 {
      assert (a + b)[1..] == a[1..] + b;
      TakeIdStopsAt(a[1..], b);
    } else {
      assert a + b == b;
    }
  }

  // ---------------------------------------------------------------------------
  // marqueeNews: marqueeText split at '\n', keeping the lines with content
  // ---------------------------------------------------------------------------

  /** `split('\n')`: the pieces between line feeds; a text with k line feeds has k + 1 pieces. */
  function SplitLines(s: string): (r: seq<string>)
    ensures |r| >= 1
    ensures forall i :: 0 <= i < |r| ==> '\n' !in r[i]
  {
    if |s| == 0 then [""]
    else if s[0] == '\n' then [""] + SplitLines(s[1..])
    else
      var rest := SplitLines(s[1..]);
      [[s[0]] + rest[0]] + rest[1..]
  }

  /** `join('\n')`: the inverse of `SplitLines`. */
  function JoinLines(pieces: seq<string>): (r: string)
    requires |pieces| >= 1
  {
    if |pieces| == 1 then pieces[0] else pieces[0] + "\n" + JoinLines(pieces[1..])
  }

  /** Joining the pieces gives back the text. */
  lemma {:induction false} JoinSplit(s: string)
    ensures JoinLines(SplitLines(s)) == s
  {
    if |s| == 0 {
    } else if s[0] == '\n' {
      JoinSplit(s[1..]);
      assert SplitLines(s)[1..] == SplitLines(s[1..]);
    } else {
      JoinSplit(s[1..]);
      var rest := SplitLines(s[1..]);
      if |rest| == 1 {
        assert JoinLines(SplitLines(s)) == [s[0]] + rest[0];
      } else {
        assert SplitLines(s)[1..] == rest[1..];
        assert JoinLines(SplitLines(s)) == [s[0]] + rest[0] + "\n" + JoinLines(rest[1..]);
        assert JoinLines(rest) == rest[0] + "\n" + JoinLines(rest[1..]);
      }
    }
  }

  /** Splitting the joined pieces gives back the pieces, when none of them holds a line feed. */
  lemma {:induction false} SplitJoin(pieces: seq<string>)
    requires |pieces| >= 1
    requires forall i :: 0 <= i < |pieces| ==> '\n' !in pieces[i]
    ensures SplitLines(JoinLines(pieces)) == pieces
  {
    if |pieces| == 1 {
      SplitPiece(pieces[0], "");
      assert pieces[0] + "" == pieces[0];
    } else {
      SplitJoin(pieces[1..]);
      var t := JoinLines(pieces[1..]);
      SplitPiece(pieces[0], "\n" + t);
      assert pieces[0] + "\n" + t == pieces[0] + ("\n" + t);
      assert ("\n" + t)[0] == '\n' && ("\n" + t)[1..] == t;
      assert SplitLines("\n" + t) == [""] + pieces[1..];
      assert pieces[0] + "" == pieces[0];
      assert [pieces[0]] + pieces[1..] == pieces;
    }
  }

  /** A piece without line feeds joins the first piece of what follows it. */
  lemma {:induction false} SplitPiece(a: string, b: string)
    requires '\n' !in a
    ensures SplitLines(a + b) == [a + SplitLines(b)[0]] + SplitLines(b)[1..]
  {
    if |a| > 0 {
      assert (a + b)[0] == a[0];
      assert (a + b)[1..] == a[1..] + b;
      assert '\n' !in a[1..] by { forall c | c in a[1..] ensures c != '\n' { assert c in a; } }
      SplitPiece(a[1..], b);
      assert [a[0]] + (a[1..] + SplitLines(b)[0]) == a + SplitLines(b)[0];
    } else {
      assert a + b == b;
      var r := SplitLines(b);
      assert a + r[0] == r[0];
      assert [r[0]] + r[1..] == r;
    }
  }

  /** The characters `trim` removes: ECMAScript white space and line terminators. */
  predicate IsJsWhiteSpace(c: char) {
    c == '\t' || c == '\U{B}' || c == '\U{C}' || c == ' ' || c == '\U{A0}' || c == '\U{FEFF}'
    || c == '\U{1680}' || ('\U{2000}' <= c <= '\U{200A}') || c == '\U{202F}' || c == '\U{205F}'
    || c == '\U{3000}' || IsLineTerminator(c)
  }

  /** `trimStart`. */
  function TrimStart(s: string): (r: string)
    ensures |r| <= |s| && r == s[|s| - |r|..]
    ensures |r| > 0 ==> !IsJsWhiteSpace(r[0])
    ensures forall i :: 0 <= i < |s| - |r| ==> IsJsWhiteSpace(s[i])
  {
    if |s| == 0 || !IsJsWhiteSpace(s[0]) then s else TrimStart(s[1..])
  }

  /** `trimEnd`. */
  function TrimEnd(s: string): (r: string)
    ensures |r| <= |s| && r == s[..|r|]
    ensures |r| > 0 ==> !IsJsWhiteSpace(r[|r| - 1])
    ensures forall i :: |r| <= i < |s| ==> IsJsWhiteSpace(s[i])
  {
    if |s| == 0 || !IsJsWhiteSpace(s[|s| - 1]) then s else TrimEnd(s[..|s| - 1])
  }

  /** `trim`: a contiguous part of the line that neither starts nor ends with white space, with
      only white space cut off around it. */
  function Trim(s: string): (r: string)
    ensures |r| <= |s|
    ensures |r| > 0 ==> !IsJsWhiteSpace(r[0]) && !IsJsWhiteSpace(r[|r| - 1])
    ensures exists lo :: CutAround(s, lo, r)
  {
    var t := TrimStart(s);
    var r := TrimEnd(t);
    CutAroundTrimmed(s, t, r);
    r
  }

  /** Cutting white space off the front and then off the back leaves a part with only white space
      around it. */
  lemma CutAroundTrimmed(s: string, t: string, r: string)
    requires |t| <= |s| && t == s[|s| - |t|..] && forall i :: 0 <= i < |s| - |t| ==> IsJsWhiteSpace(s[i])
    requires |r| <= |t| && r == t[..|r|] && forall i :: |r| <= i < |t| ==> IsJsWhiteSpace(t[i])
    ensures |r| > 0 ==> r[0] == t[0]
    ensures CutAround(s, |s| - |t|, r)
  {
    var lo := |s| - |t|;
    PrefixOfSuffix(s, lo, |r|);
    forall i | lo + |r| <= i < |s| ensures IsJsWhiteSpace(s[i]) {
      assert s[i] == t[i - lo];
    }
  }

  /** Taking `n` characters after dropping `lo` is the slice from `lo` to `lo + n`. */
  lemma PrefixOfSuffix(s: string, lo: nat, n: nat)
    requires lo + n <= |s|
    ensures s[lo..][..n] == s[lo..lo + n]
  {
  }

  /** `r` is the part of `s` from `lo` on, with only white space before and after it. */
  predicate CutAround(s: string, lo: int, r: string) {
    && 0 <= lo <= |s| - |r| && r == s[lo..lo + |r|]
    && (forall i :: 0 <= i < lo ==> IsJsWhiteSpace(s[i]))
    && (forall i :: lo + |r| <= i < |s| ==> IsJsWhiteSpace(s[i]))
  }

  /** A line survives the ticker's filter exactly when it holds a character that is not white space. */
  lemma TrimmedNonEmpty(s: string)
    ensures |Trim(s)| > 0 <==> exists i :: 0 <= i < |s| && !IsJsWhiteSpace(s[i])
  {
    var t := TrimStart(s);
    if |Trim(s)| > 0 {
      assert s[|s| - |t|] == t[0];
    }
  }

  /** `filter(t => t.trim().length > 0)`. */
  function NonBlankLines(lines: seq<string>): (r: seq<string>)
    ensures |r| <= |lines|
    ensures forall i :: 0 <= i < |r| ==> r[i] in lines && |Trim(r[i])| > 0
    ensures forall x :: x in lines && |Trim(x)| > 0 ==> x in r
  {
    if |lines| == 0 then []
    else
      var rest := NonBlankLines(lines[1..]);
      assert forall x :: x in lines[1..] ==> x in lines;
      if |Trim(lines[0])| > 0 then [lines[0]] + rest else rest
  }

  /** The filter keeps the order: filtering a concatenation concatenates the filtered parts. */
  lemma {:induction false} NonBlankLinesAppend(a: seq<string>, b: seq<string>)
    ensures NonBlankLines(a + b) == NonBlankLines(a) + NonBlankLines(b)
  {
    if |a| == 0 {
      assert a + b == b;
    } else {
      assert (a + b)[1..] == a[1..] + b;
      NonBlankLinesAppend(a[1..], b);
    }
  }

  /** `marqueeNews`: the non-blank lines of the ticker text, none when there is no text. */
  function MarqueeNews(text: Option<string>): (r: seq<string>)
    ensures text.None? ==> r == []
    ensures text.Some? ==> r == NonBlankLines(SplitLines(text.value))
  {
    match text
    case None => []
    case Some(t) => NonBlankLines(SplitLines(t))
  }

  /** Every line of the ticker is a non-blank piece of the text, without line feeds; every
      non-blank piece is shown. */
  lemma MarqueeNewsLines(t: string)
    ensures forall i :: 0 <= i < |MarqueeNews(Some(t))| ==>
      var line := MarqueeNews(Some(t))[i];
      line in SplitLines(t) && '\n' !in line && exists j :: 0 <= j < |line| && !IsJsWhiteSpace(line[j])
    ensures forall x :: x in SplitLines(t) && (exists j :: 0 <= j < |x| && !IsJsWhiteSpace(x[j])) ==> x in MarqueeNews(Some(t))
  {
    var r := MarqueeNews(Some(t));
    forall i | 0 <= i < |r|
      ensures '\n' !in r[i] && exists j :: 0 <= j < |r[i]| && !IsJsWhiteSpace(r[i][j])
    {
      TrimmedNonEmpty(r[i]);
    }
    forall x | x in SplitLines(t) && (exists j :: 0 <= j < |x| && !IsJsWhiteSpace(x[j]))
      ensures x in r
    {
      TrimmedNonEmpty(x);
    }
  }

  // ---------------------------------------------------------------------------
  // currentStarters
  // ---------------------------------------------------------------------------

  /** `players.find(p => p.id === id)`. */
  function FindPlayer(players: seq<Player>, id: string): (r: Option<Player>)
    ensures r.None? <==> forall i :: 0 <= i < |players| ==> players[i].id != id
    ensures r.Some? ==>
      exists i :: 0 <= i < |players| && players[i] == r.value && r.value.id == id
        && forall j :: 0 <= j < i ==> players[j].id != id
  {
    if |players| == 0 then None
    else if players[0].id == id then Some(players[0])
    else
      var r := FindPlayer(players[1..], id);
      if r.Some? then
        var k :| 0 <= k < |players[1..]| && players[1..][k] == r.value && r.value.id == id
          && forall j :: 0 <= j < k ==> players[1..][j].id != id;
        assert players[k + 1] == r.value;
        r
      else r
  }

  /** `lineupIds.map(find).filter(Boolean)`: the players of the lineup, in lineup order, with the
      ids no player has dropped. */
  function StartersOf(players: seq<Player>, lineupIds: seq<string>): (r: seq<Player>)
    ensures |r| <= |lineupIds|
    ensures forall i :: 0 <= i < |r| ==> r[i] in players && r[i].id in lineupIds
  {
    if |lineupIds| == 0 then []
    else
      var rest := StartersOf(players, lineupIds[1..]);
      assert forall x :: x in lineupIds[1..] ==> x in lineupIds;
      match FindPlayer(players, lineupIds[0])
      case Some(p) => [p] + rest
      case None => rest
  }

  /** The lookup keeps the lineup order: the starters of a concatenation are the concatenated
      starters. */
  lemma {:induction false} StartersOfAppend(players: seq<Player>, a: seq<string>, b: seq<string>)
    ensures StartersOf(players, a + b) == StartersOf(players, a) + StartersOf(players, b)
  {
    if |a| == 0 {
      assert a + b == b;
    } else {
      assert (a + b)[1..] == a[1..] + b;
      StartersOfAppend(players, a[1..], b);
    }
  }

  /** Some player has id `id`. */
  predicate NamesPlayer(players: seq<Player>, id: string) {
    exists i :: 0 <= i < |players| && players[i].id == id
  }

  /** When every lineup id names a player, the starters are exactly the lineup, one for one. */
  lemma {:induction false} StartersOfFullLineup(players: seq<Player>, lineupIds: seq<string>)
    requires forall k :: 0 <= k < |lineupIds| ==> NamesPlayer(players, lineupIds[k])
    ensures |StartersOf(players, lineupIds)| == |lineupIds|
    ensures forall k :: 0 <= k < |lineupIds| ==> StartersOf(players, lineupIds)[k].id == lineupIds[k]
  {
    if |lineupIds| > 0 {
      var rest := lineupIds[1..];
      assert forall k :: 0 <= k < |rest| ==> rest[k] == lineupIds[k + 1];
      StartersOfFullLineup(players, rest);
      var found := FindPlayer(players, lineupIds[0]);
      assert found.Some?;
      var r := StartersOf(players, lineupIds);
      assert r == [found.value] + StartersOf(players, rest);
      forall k | 0 <= k < |lineupIds| ensures r[k].id == lineupIds[k] {
        if k > 0 {
          assert r[k] == StartersOf(players, rest)[k - 1] && lineupIds[k] == rest[k - 1];
        }
      }
    }
  }

  /** `currentStarters`: the starters of the signed-in user's lineup, none when nobody is signed in. */
  function CurrentStarters(user: Option<User>, players: seq<Player>): (r: seq<Player>)
    ensures user.None? ==> r == []
    ensures user.Some? ==> r == StartersOf(players, user.value.team.currentLineupIds)
  {
    match user
    case None => []
    case Some(u) => StartersOf(players, u.team.currentLineupIds)
  }

  // ---------------------------------------------------------------------------
  // latestCalculatedMatchday
  // ---------------------------------------------------------------------------

  /** `matchdays.find(m => m.status === 'calculated')`. */
  function FirstCalculated(matchdays: seq<Matchday>): (r: Option<nat>)
    ensures r.None? <==> forall i :: 0 <= i < |matchdays| ==> matchdays[i].status != Calculated
    ensures r.Some? ==>
      && r.value < |matchdays| && matchdays[r.value].status == Calculated
      && forall j :: 0 <= j < r.value ==> matchdays[j].status != Calculated
  {
    if |matchdays| == 0 then None
    else if matchdays[0].status == Calculated then Some(0)
    else match FirstCalculated(matchdays[1..])
      case None => None
      case Some(k) => Some(k + 1)
  }

  /** `latestCalculatedMatchday`. */
  function LatestCalculatedMatchday(matchdays: seq<Matchday>): (r: Option<Matchday>)
    ensures r.None? <==> forall m :: m in matchdays ==> m.status != Calculated
    ensures r.Some? ==> r.value in matchdays && r.value.status == Calculated
    ensures r.Some? ==>
      exists k :: 0 <= k < |matchdays| && matchdays[k] == r.value
        && forall j :: 0 <= j < k ==> matchdays[j].status != Calculated
  {
    match FirstCalculated(matchdays)
    case None => None
    case Some(k) => Some(matchdays[k])
  }

  /** The matchdays come sorted by number, highest first. */
  predicate SortedByNumberDescending(matchdays: seq<Matchday>) {
    forall i, j :: 0 <= i < j < |matchdays| ==> matchdays[i].number >= matchdays[j].number
  }

  /** On a list sorted highest first, the first calculated matchday is the highest-numbered one. */
  lemma LatestCalculatedIsHighest(matchdays: seq<Matchday>)
    requires SortedByNumberDescending(matchdays)
    ensures forall m :: m in matchdays && m.status == Calculated ==>
      LatestCalculatedMatchday(matchdays).Some? && m.number <= LatestCalculatedMatchday(matchdays).value.number
  {
    forall m | m in matchdays && m.status == Calculated
      ensures LatestCalculatedMatchday(matchdays).Some? && m.number <= LatestCalculatedMatchday(matchdays).value.number
    {
      var j :| 0 <= j < |matchdays| && matchdays[j] == m;
      var k := FirstCalculated(matchdays).value;
      assert k <= j;
    }
  }
}
