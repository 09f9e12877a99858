/**
 * Video-identifier extraction (`extract_video_id`).
 *
 * The four patterns the extractor tries all have the shape
 * `(?:A1|A2|...)([0-9A-Za-z_-]{11})`: a choice of fixed-length prefixes
 * followed by capture group 1, eleven identifier characters. They are
 * modelled as data, and Python's `re.search` on such a pattern as the
 * search for the leftmost start position where the pattern matches; at one
 * position the alternatives are tried in order, as a backtracking matcher
 * does. There is no end anchor: whatever follows the eleven characters is
 * not looked at.
 */
module VideoId {
  import opened Optional

  /** Length of a YouTube video identifier, the `{11}` of every pattern. */
  const IdLength: nat := 11

  /** The character class `[0-9A-Za-z_-]`. */
  predicate IsIdChar(c: char) {
    ('0' <= c <= '9') || ('A' <= c <= 'Z') || ('a' <= c <= 'z') || c == '_' || c == '-'
  }

  predicate IsVideoId(id: string) {
    |id| == IdLength && forall k :: 0 <= k < |id| ==> IsIdChar(id[k])
  }

  /** One element of a prefix: a literal character, or `.` (any character but a newline). */
  datatype Atom = Lit(c: char) | AnyButNewline

  predicate AtomMatches(a: Atom, c: char) {
    match a
    case Lit(d) => c == d
    case AnyButNewline => c != '\n'
  }

  /** `(?:alternatives[0]|alternatives[1]|...)([0-9A-Za-z_-]{11})` */
  datatype Pattern = Pattern(alternatives: seq<seq<Atom>>)

  /** `(?:v=|\/)([0-9A-Za-z_-]{11})` */
  const WatchOrSlash: Pattern := Pattern([[Lit('v'), Lit('=')], [Lit('/')]])

  /** `youtu.be\/([0-9A-Za-z_-]{11})`: the `.` is unescaped and matches any character but a newline. */
  const ShortLink: Pattern := Pattern([[Lit('y'), Lit('o'), Lit('u'), Lit('t'), Lit('u'), AnyButNewline,
                                        Lit('b'), Lit('e'), Lit('/')]])

  /** `embed\/([0-9A-Za-z_-]{11})` */
  const Embed: Pattern := Pattern([[Lit('e'), Lit('m'), Lit('b'), Lit('e'), Lit('d'), Lit('/')]])

  /** `shorts\/([0-9A-Za-z_-]{11})` */
  const Shorts: Pattern := Pattern([[Lit('s'), Lit('h'), Lit('o'), Lit('r'), Lit('t'), Lit('s'), Lit('/')]])

  /** The patterns in the order the extractor tries them. */
  const Patterns: seq<Pattern> := [WatchOrSlash, ShortLink, Embed, Shorts]

  /** The atoms of `prefix` match the characters of `s` from position `i` on. */
  predicate PrefixAt(prefix: seq<Atom>, s: string, i: nat) {
    i + |prefix| <= |s| && forall k :: 0 <= k < |prefix| ==> AtomMatches(prefix[k], s[i + k])
  }

  /** Eleven identifier characters start at position `i`. */
  predicate IdAt(s: string, i: nat) {
    i + IdLength <= |s| && forall k :: i <= k < i + IdLength ==> IsIdChar(s[k])
  }

  predicate AltMatchesAt(alt: seq<Atom>, s: string, i: nat) {
    PrefixAt(alt, s, i) && IdAt(s, i + |alt|)
  }

  /**
   * Where capture group 1 starts when the pattern made of `alts` is tried at
   * position `i`: after the first alternative with which the whole pattern
   * matches there, or None when none does.
   */
  function GroupStart(alts: seq<seq<Atom>>, s: string, i: nat): (r: Option<nat>)
    ensures r.Some? ==> IdAt(s, r.value)
    decreases |alts|
  {
    if |alts| == 0 then None
    else if AltMatchesAt(alts[0], s, i) then Some(i + |alts[0]|)
    else GroupStart(alts[1..], s, i)
  }

  /** A group start is found exactly when some alternative matches at the position. */
  lemma {:induction false} GroupStartFound(alts: seq<seq<Atom>>, s: string, i: nat)
    ensures GroupStart(alts, s, i).Some? <==> exists k :: 0 <= k < |alts| && AltMatchesAt(alts[k], s, i)
    decreases |alts|
  {
    if |alts| > 0 && !AltMatchesAt(alts[0], s, i) {
      GroupStartFound(alts[1..], s, i);
      assert forall k :: 1 <= k < |alts| ==> alts[k] == alts[1..][k - 1];
    }
  }

  /** `re.match` of the pattern at position `i`: group 1, or None. */
  function MatchAt(p: Pattern, s: string, i: nat): (r: Option<string>)
    ensures r.Some? ==> IsVideoId(r.value)
  {
    match GroupStart(p.alternatives, s, i)
    case None => None
    case Some(g) => Some(s[g..g + IdLength])
  }

  /** `re.search` restricted to the positions from `i` on. */
  function SearchFrom(p: Pattern, s: string, i: nat): (r: Option<string>)
    ensures r.Some? ==> IsVideoId(r.value)
    decreases |s| - i
  {
    if i > |s| then None
    else match MatchAt(p, s, i)
      case Some(id) => Some(id)
      case None => SearchFrom(p, s, i + 1)
  }

  /** `re.search(pattern, s).group(1)`, or None when there is no match. */
  function Search(p: Pattern, s: string): (r: Option<string>)
    ensures r.Some? ==> IsVideoId(r.value)
  {
    SearchFrom(p, s, 0)
  }

  /**
   * `extract_video_id`: the group of the first pattern that matches and
   * whose group has length eleven.
   */
  function FirstMatch(ps: seq<Pattern>, url: string): (r: Option<string>)
    ensures r.Some? ==> IsVideoId(r.value)
    ensures |ps| > 0 && Search(ps[0], url).Some? ==> r == Search(ps[0], url)
    decreases |ps|
  {
    if |ps| == 0 then None
    else
      var m := Search(ps[0], url);
      if m.Some? && |m.value| == IdLength then m else FirstMatch(ps[1..], url)
  }

  /** The result is the search of the first pattern that finds anything. */
  lemma {:induction false} FirstMatchIsFirst(ps: seq<Pattern>, url: string, j: nat)
    requires j < |ps| && Search(ps[j], url).Some?
    requires forall k :: 0 <= k < j ==> Search(ps[k], url).None?
    ensures FirstMatch(ps, url) == Search(ps[j], url)
    decreases j
  {
    if j > 0 {
      assert Search(ps[0], url).None?;
      assert forall k :: 0 <= k < j - 1 ==> ps[1..][k] == ps[k + 1];
      FirstMatchIsFirst(ps[1..], url, j - 1);
    }
  }

  /** There is no result exactly when no pattern finds anything. */
  lemma {:induction false} FirstMatchNone(ps: seq<Pattern>, url: string)
    ensures FirstMatch(ps, url).None? <==> forall k :: 0 <= k < |ps| ==> Search(ps[k], url).None?
    decreases |ps|
  {
    if |ps| > 0 {
      FirstMatchNone(ps[1..], url);
      assert forall k :: 1 <= k < |ps| ==> ps[k] == ps[1..][k - 1];
    }
  }

  function ExtractVideoId(url: string): (r: Option<string>)
    ensures r.Some? ==> IsVideoId(r.value)
  {
    FirstMatch(Patterns, url)
  }

  // ---------------------------------------------------------------------------
  // re.search is a leftmost-position search

  /** From position `i` on, the search finds the leftmost matching position. */
  lemma {:induction false} SearchFromLeftmost(p: Pattern, s: string, i: nat, j: nat)
    requires i <= j <= |s|
    requires MatchAt(p, s, j).Some?
    requires forall k :: i <= k < j ==> MatchAt(p, s, k).None?
    ensures SearchFrom(p, s, i) == MatchAt(p, s, j)
    decreases j - i
  {
    if i < j {
      assert MatchAt(p, s, i).None?;
      assert SearchFrom(p, s, i) == SearchFrom(p, s, i + 1);
      SearchFromLeftmost(p, s, i + 1, j);
    } else {
      assert SearchFrom(p, s, j) == MatchAt(p, s, j);
    }
  }

  /** The search from position `i` fails exactly when no position from `i` on matches. */
  lemma {:induction false} SearchFromNone(p: Pattern, s: string, i: nat)
    ensures SearchFrom(p, s, i).None? <==> forall k :: i <= k <= |s| ==> MatchAt(p, s, k).None?
    decreases |s| - i
  {
    if i <= |s| {
      SearchFromNone(p, s, i + 1);
      if MatchAt(p, s, i).None? {
        assert SearchFrom(p, s, i) == SearchFrom(p, s, i + 1);
      } else {
        assert SearchFrom(p, s, i) == MatchAt(p, s, i);
      }
    }
  }

  /** A found group is the group at some position that matches, and no earlier position matches. */
  lemma {:induction false} SearchFromSome(p: Pattern, s: string, i: nat)
    requires SearchFrom(p, s, i).Some?
    ensures exists j :: i <= j <= |s| && MatchAt(p, s, j) == SearchFrom(p, s, i)
                        && forall k :: i <= k < j ==> MatchAt(p, s, k).None?
    decreases |s| - i
  {
    if MatchAt(p, s, i).None? {
      SearchFromSome(p, s, i + 1);
      var j :| i + 1 <= j <= |s| && MatchAt(p, s, j) == SearchFrom(p, s, i + 1)
               && forall k :: i + 1 <= k < j ==> MatchAt(p, s, k).None?;
      assert MatchAt(p, s, j) == SearchFrom(p, s, i);
    } else {
      assert MatchAt(p, s, i) == SearchFrom(p, s, i);
    }
  }

  /** `re.search` of the pattern: the group at the leftmost matching position, or None when none matches. */
  lemma SearchIsLeftmost(p: Pattern, s: string)
    ensures Search(p, s).None? <==> forall k :: 0 <= k <= |s| ==> MatchAt(p, s, k).None?
    ensures forall j :: 0 <= j <= |s| && MatchAt(p, s, j).Some? && (forall k :: 0 <= k < j ==> MatchAt(p, s, k).None?)
                        ==> Search(p, s) == MatchAt(p, s, j)
    ensures Search(p, s).Some? ==> exists j :: 0 <= j <= |s| && MatchAt(p, s, j) == Search(p, s)
                                               && forall k :: 0 <= k < j ==> MatchAt(p, s, k).None?
  {
    SearchFromNone(p, s, 0);
    forall j | 0 <= j <= |s| && MatchAt(p, s, j).Some? && (forall k :: 0 <= k < j ==> MatchAt(p, s, k).None?)
      ensures Search(p, s) == MatchAt(p, s, j)
    {
      SearchFromLeftmost(p, s, 0, j);
    }
    if Search(p, s).Some? {
      SearchFromSome(p, s, 0);
    }
  }

  // ---------------------------------------------------------------------------
  // Pattern 1 read directly, and why the other three patterns never matter

  /** Pattern 1 matches at `i`: `v=` or `/` there, followed by eleven identifier characters. */
  predicate WatchOrSlashAt(s: string, i: nat) {
    (i + 2 <= |s| && s[i] == 'v' && s[i + 1] == '=' && IdAt(s, i + 2)) || (i < |s| && s[i] == '/' && IdAt(s, i + 1))
  }

  /** The eleven characters after the `v=` or the `/` at `i`. */
  function WatchOrSlashGroup(s: string, i: nat): (id: string)
    requires WatchOrSlashAt(s, i)
    ensures IsVideoId(id)
  {
    if s[i] == '/' then s[i + 1..i + 1 + IdLength] else s[i + 2..i + 2 + IdLength]
  }

  /** The data-driven matcher agrees with the direct reading of pattern 1. */
  lemma WatchOrSlashMatchAt(s: string, i: nat)
    ensures MatchAt(WatchOrSlash, s, i).Some? <==> WatchOrSlashAt(s, i)
    ensures WatchOrSlashAt(s, i) ==> MatchAt(WatchOrSlash, s, i) == Some(WatchOrSlashGroup(s, i))
  {
    var alts := WatchOrSlash.alternatives;
    assert alts[0] == [Lit('v'), Lit('=')] && alts[1] == [Lit('/')];
    assert PrefixAt(alts[0], s, i) <==> i + 2 <= |s| && s[i] == 'v' && s[i + 1] == '=' by {
      if i + 2 <= |s| {
        assert PrefixAt(alts[0], s, i) ==> AtomMatches(alts[0][0], s[i]) && AtomMatches(alts[0][1], s[i + 1]);
      }
    }
    assert PrefixAt(alts[1], s, i) <==> i < |s| && s[i] == '/' by {
      assert PrefixAt(alts[1], s, i) ==> AtomMatches(alts[1][0], s[i + 0]);
    }
    assert alts[1..] == [alts[1]];
    assert alts[1..][1..] == [];
  }

  /**
   * Each of patterns 2 to 4 ends its prefix with `/`, so wherever one of
   * them matches, pattern 1 matches at that slash with the same group.
   */
  lemma SlashFormImpliesWatchOrSlash(p: Pattern, s: string, i: nat)
    requires p == ShortLink || p == Embed || p == Shorts
    requires MatchAt(p, s, i).Some?
    ensures i + |p.alternatives[0]| - 1 <= |s|
    ensures MatchAt(WatchOrSlash, s, i + |p.alternatives[0]| - 1) == MatchAt(p, s, i)
  {
    var alt := p.alternatives[0];
    assert p.alternatives[1..] == [];
    assert AltMatchesAt(alt, s, i);
    var slash := i + |alt| - 1;
    assert AtomMatches(alt[|alt| - 1], s[i + (|alt| - 1)]);
    assert s[slash] == '/';
    WatchOrSlashMatchAt(s, slash);
  }

  /** Wherever a later pattern is found, pattern 1 is found too. */
  lemma SlashFormSearchImpliesWatchOrSlash(p: Pattern, s: string)
    requires p == ShortLink || p == Embed || p == Shorts
    requires Search(p, s).Some?
    ensures Search(WatchOrSlash, s).Some?
  {
    SearchIsLeftmost(p, s);
    var j :| 0 <= j <= |s| && MatchAt(p, s, j) == Search(p, s) && forall k :: 0 <= k < j ==> MatchAt(p, s, k).None?;
    SlashFormImpliesWatchOrSlash(p, s, j);
    SearchIsLeftmost(WatchOrSlash, s);
  }

  /**
   * Patterns 2 to 4 never change the outcome: extraction is exactly the
   * search for pattern 1, and the length test never rejects its group.
   */
  lemma ExtractIsWatchOrSlashSearch(url: string)
    ensures ExtractVideoId(url) == Search(WatchOrSlash, url)
  {
    var m := Search(WatchOrSlash, url);
    if m.None? {
      if Search(ShortLink, url).Some? { SlashFormSearchImpliesWatchOrSlash(ShortLink, url); }
      if Search(Embed, url).Some? { SlashFormSearchImpliesWatchOrSlash(Embed, url); }
      if Search(Shorts, url).Some? { SlashFormSearchImpliesWatchOrSlash(Shorts, url); }
      var ps := Patterns;
      assert ps[1..][0] == ShortLink && ps[1..][1..][0] == Embed && ps[1..][1..][1..][0] == Shorts;
      assert ps[1..][1..][1..][1..] == [];
      assert FirstMatch(ps[1..][1..][1..], url) == FirstMatch(ps[1..][1..][1..][1..], url);
      assert FirstMatch(ps[1..][1..], url) == FirstMatch(ps[1..][1..][1..], url);
      assert FirstMatch(ps[1..], url) == FirstMatch(ps[1..][1..], url);
    }
  }

  /**
   * The extracted identifier is the group of the leftmost position holding
   * `v=` or `/` followed by eleven identifier characters; there is none
   * exactly when no position qualifies.
   */
  lemma ExtractVideoIdLeftmost(url: string)
    ensures ExtractVideoId(url).None? <==> forall i :: 0 <= i <= |url| ==> !WatchOrSlashAt(url, i)
    ensures forall i :: 0 <= i <= |url| && WatchOrSlashAt(url, i) && (forall j :: 0 <= j < i ==> !WatchOrSlashAt(url, j))
                        ==> ExtractVideoId(url) == Some(WatchOrSlashGroup(url, i))
    ensures ExtractVideoId(url).Some? ==>
              exists i :: 0 <= i <= |url| && WatchOrSlashAt(url, i) && ExtractVideoId(url) == Some(WatchOrSlashGroup(url, i))
                          && forall j :: 0 <= j < i ==> !WatchOrSlashAt(url, j)
  {
    ExtractIsWatchOrSlashSearch(url);
    SearchIsLeftmost(WatchOrSlash, url);
    forall i | 0 <= i <= |url| ensures MatchAt(WatchOrSlash, url, i).Some? <==> WatchOrSlashAt(url, i) {
      WatchOrSlashMatchAt(url, i);
    }
    forall i | 0 <= i <= |url| && WatchOrSlashAt(url, i)
      ensures MatchAt(WatchOrSlash, url, i) == Some(WatchOrSlashGroup(url, i))
    {
      WatchOrSlashMatchAt(url, i);
    }
  }

  /**
   * No end anchor: once an identifier is found, appending anything to the
   * URL (more identifier characters included) leaves it unchanged.
   */
  lemma ExtractIgnoresSuffix(url: string, rest: string)
    requires ExtractVideoId(url).Some?
    ensures ExtractVideoId(url + rest) == ExtractVideoId(url)
  {
    ExtractVideoIdLeftmost(url);
    ExtractVideoIdLeftmost(url + rest);
    var i :| 0 <= i <= |url| && WatchOrSlashAt(url, i) && ExtractVideoId(url) == Some(WatchOrSlashGroup(url, i))
             && forall j :: 0 <= j < i ==> !WatchOrSlashAt(url, j);
    var s := url + rest;
    assert WatchOrSlashAt(s, i) && WatchOrSlashGroup(s, i) == WatchOrSlashGroup(url, i) by {
      WindowPrefix(url, rest, i);
    }
    forall j | 0 <= j < i ensures !WatchOrSlashAt(s, j) {
      WindowPrefix(url, rest, j);
    }
  }

  /** A candidate window that fits inside `url` reads the same in `url + rest`. */
  lemma WindowPrefix(url: string, rest: string, i: nat)
    requires i + 2 + IdLength <= |url| || (i + 1 + IdLength <= |url| && url[i] == '/')
    ensures WatchOrSlashAt(url + rest, i) <==> WatchOrSlashAt(url, i)
    ensures WatchOrSlashAt(url, i) ==> WatchOrSlashGroup(url + rest, i) == WatchOrSlashGroup(url, i)
  {
    var s := url + rest;
    assert forall k :: 0 <= k < |url| ==> s[k] == url[k];
  }
}
