/**
 * The four URL shapes the extractor is meant for, and a URL of none of
 * them. Each shape is proved for every well-formed identifier and every
 * tail after it; the usual sample identifier is one instance.
 */
module VideoIdExamples {
  import opened Optional
  import opened VideoId

  /** No position in `[lo, hi)` is a candidate for pattern 1. */
  predicate NoCandidateIn(s: string, lo: nat, hi: nat) {
    forall j :: lo <= j < hi ==> !WatchOrSlashAt(s, j)
  }

  lemma NoCandidateJoin(s: string, lo: nat, mid: nat, hi: nat)
    requires lo <= mid <= hi
    requires NoCandidateIn(s, lo, mid) && NoCandidateIn(s, mid, hi)
    ensures NoCandidateIn(s, lo, hi)
  {
  }

  /** A stretch holding neither `v` nor `/` has no candidate position. */
  lemma NoMarkerIn(before: string, stretch: string, after: string)
    requires 'v' !in stretch && '/' !in stretch
    ensures NoCandidateIn(before + stretch + after, |before|, |before| + |stretch|)
  {
    var s := before + stretch + after;
    forall j | |before| <= j < |before| + |stretch| ensures !WatchOrSlashAt(s, j) {
      assert s[j] == stretch[j - |before|];
    }
  }

  /** A `/` whose next eleven characters include a non-identifier one is no candidate. */
  lemma SlashBlocked(before: string, after: string, k: nat)
    requires k < IdLength && k < |after| && !IsIdChar(after[k])
    ensures NoCandidateIn(before + "/" + after, |before|, |before| + 1)
  {
    var s := before + "/" + after;
    assert s[|before|] == '/';
    assert s[|before| + 1 + k] == after[k];
  }

  /** `v=` or `/`, then an identifier: a candidate whose group is that identifier. */
  lemma CandidateAt(before: string, marker: string, id: string, after: string)
    requires marker == "v=" || marker == "/"
    requires IsVideoId(id)
    ensures WatchOrSlashAt(before + marker + id + after, |before|)
    ensures WatchOrSlashGroup(before + marker + id + after, |before|) == id
  {
    var s := before + marker + id + after;
    var g := |before| + |marker|;
    assert s[g..g + IdLength] == id;
    assert marker == "v=" ==> s[|before|] == 'v' && s[|before| + 1] == '=';
    assert marker == "/" ==> s[|before|] == '/';
    assert forall k :: g <= k < g + IdLength ==> s[k] == id[k - g];
  }

  /** Extraction from a URL whose leftmost candidate is known. */
  lemma FoundAt(url: string, i: nat)
    requires i <= |url| && WatchOrSlashAt(url, i)
    requires NoCandidateIn(url, 0, i)
    ensures ExtractVideoId(url) == Some(WatchOrSlashGroup(url, i))
  {
    ExtractVideoIdLeftmost(url);
  }

  /** `https://www.youtube.com/watch?v=<id>...` yields `<id>`. */
  lemma WatchShape(id: string, tail: string)
    requires IsVideoId(id)
    ensures ExtractVideoId("https://www.youtube.com/watch?v=" + id + tail) == Some(id)
  {
    var url := "https://www.youtube.com/watch?v=" + id + tail;
    var before := "https://www.youtube.com/watch?";
    assert url == before + ("v=" + id + tail);
    YouTubeWatchPrefixScan("v=" + id + tail);
    CandidateAt(before, "v=", id, tail);
    assert before + "v=" + id + tail == url;
    FoundAt(url, 30);
  }

  /** No candidate inside `https://www.youtube.com/watch?`, whatever follows it. */
  lemma YouTubeWatchPrefixScan(rest: string)
    ensures NoCandidateIn("https://www.youtube.com/watch?" + rest, 0, 30)
  {
    var p1, p2, p3, p4, p5, p6 := "https:", "/", "/", "www.youtube.com", "/", "watch?";
    var url := p1 + p2 + p3 + p4 + p5 + p6 + rest;
    YouTubeHostScan(p6 + rest);
    assert url == "https://www.youtube.com" + "/" + (p6 + rest);
    assert NoCandidateIn(url, 23, 24) by {
      assert url == (p1 + p2 + p3 + p4) + p5 + (p6 + rest);
      SlashBlocked(p1 + p2 + p3 + p4, p6 + rest, 5);
    }
    assert NoCandidateIn(url, 24, 30) by {
      assert url == (p1 + p2 + p3 + p4 + p5) + p6 + rest;
      NoMarkerIn(p1 + p2 + p3 + p4 + p5, p6, rest);
    }
    NoCandidateJoin(url, 0, 23, 24);
    NoCandidateJoin(url, 0, 24, 30);
    assert url == "https://www.youtube.com/watch?" + rest;
  }

  /**
   * No candidate inside `https://<host>` when the host holds no `v` and no
   * `/`, and a non-identifier character of the host sits close enough to
   * block the second slash of `//`.
   */
  lemma SchemeAndHostScan(host: string, rest: string, k: nat)
    requires k < IdLength - 1 && k < |host| && !IsIdChar(host[k])
    requires 'v' !in host && '/' !in host
    ensures NoCandidateIn("https://" + host + rest, 0, 8 + |host|)
  {
    var p1, p2, p3 := "https:", "/", "/";
    var url := p1 + p2 + p3 + host + rest;
    assert NoCandidateIn(url, 0, 6) by {
      assert url == "" + p1 + (p2 + p3 + host + rest);
      NoMarkerIn("", p1, p2 + p3 + host + rest);
    }
    assert NoCandidateIn(url, 6, 7) by {
      assert url == p1 + p2 + (p3 + host + rest);
      SlashBlocked(p1, p3 + host + rest, 0);
    }
    assert NoCandidateIn(url, 7, 8) by {
      assert url == (p1 + p2) + p3 + (host + rest);
      SlashBlocked(p1 + p2, host + rest, k);
    }
    assert NoCandidateIn(url, 8, 8 + |host|) by {
      assert url == (p1 + p2 + p3) + host + rest;
      NoMarkerIn(p1 + p2 + p3, host, rest);
    }
    NoCandidateJoin(url, 0, 6, 7);
    NoCandidateJoin(url, 0, 7, 8);
    NoCandidateJoin(url, 0, 8, 8 + |host|);
    assert url == "https://" + host + rest;
  }

  /** No candidate inside `https://www.youtube.com`, whatever follows it. */
  lemma YouTubeHostScan(rest: string)
    ensures NoCandidateIn("https://www.youtube.com" + "/" + rest, 0, 23)
  {
    SchemeAndHostScan("www.youtube.com", "/" + rest, 3);
    assert "https://" + "www.youtube.com" + ("/" + rest) == "https://www.youtube.com" + "/" + rest;
  }

  /** `https://youtu.be/<id>...` yields `<id>`. */
  lemma ShortLinkShape(id: string, tail: string)
    requires IsVideoId(id)
    ensures ExtractVideoId("https://youtu.be/" + id + tail) == Some(id)
  {
    var url := "https://youtu.be/" + id + tail;
    var before := "https://youtu.be";
    ShortLinkPrefixScan(id + tail);
    CandidateAt(before, "/", id, tail);
    assert before + "/" + id + tail == url;
    assert before + "/" + (id + tail) == url;
    FoundAt(url, 16);
  }

  /** No candidate inside `https://youtu.be`, whatever follows it. */
  lemma ShortLinkPrefixScan(rest: string)
    ensures NoCandidateIn("https://youtu.be" + "/" + rest, 0, 16)
  {
    SchemeAndHostScan("youtu.be", "/" + rest, 5);
    assert "https://" + "youtu.be" + ("/" + rest) == "https://youtu.be" + "/" + rest;
  }

  /** `https://www.youtube.com/embed/<id>...` yields `<id>`. */
  lemma EmbedShape(id: string, tail: string)
    requires IsVideoId(id)
    ensures ExtractVideoId("https://www.youtube.com/embed/" + id + tail) == Some(id)
  {
    var url := "https://www.youtube.com/embed/" + id + tail;
    var before := "https://www.youtube.com/embed";
    YouTubePathPrefixScan("embed", id + tail);
    CandidateAt(before, "/", id, tail);
    assert "https://www.youtube.com" + "/" + ("embed" + "/" + (id + tail)) == url;
    assert before + "/" + id + tail == url;
    FoundAt(url, 29);
  }

  /** `https://www.youtube.com/shorts/<id>...` yields `<id>`. */
  lemma ShortsShape(id: string, tail: string)
    requires IsVideoId(id)
    ensures ExtractVideoId("https://www.youtube.com/shorts/" + id + tail) == Some(id)
  {
    var url := "https://www.youtube.com/shorts/" + id + tail;
    var before := "https://www.youtube.com/shorts";
    YouTubePathPrefixScan("shorts", id + tail);
    CandidateAt(before, "/", id, tail);
    assert "https://www.youtube.com" + "/" + ("shorts" + "/" + (id + tail)) == url;
    assert before + "/" + id + tail == url;
    FoundAt(url, 30);
  }

  /**
   * No candidate inside `https://www.youtube.com/<segment>` when the path
   * segment is short and holds no `v` and no `/`, and a `/` follows it.
   */
  lemma YouTubePathPrefixScan(segment: string, rest: string)
    requires 0 < |segment| < IdLength && 'v' !in segment && '/' !in segment
    ensures NoCandidateIn("https://www.youtube.com" + "/" + (segment + "/" + rest), 0, 24 + |segment|)
  {
    var host := "https://www.youtube.com";
    var url := host + "/" + (segment + "/" + rest);
    YouTubeHostScan(segment + "/" + rest);
    assert NoCandidateIn(url, 23, 24) by {
      assert (segment + "/" + rest)[|segment|] == '/';
      SlashBlocked(host, segment + "/" + rest, |segment|);
    }
    assert NoCandidateIn(url, 24, 24 + |segment|) by {
      assert url == (host + "/") + segment + ("/" + rest);
      NoMarkerIn(host + "/", segment, "/" + rest);
    }
    NoCandidateJoin(url, 0, 23, 24);
    NoCandidateJoin(url, 0, 24, 24 + |segment|);
  }

  /** The sample identifier is eleven identifier characters. */
  lemma SampleIdWellFormed()
    ensures IsVideoId("dQw4w9WgXcQ")
  {
    var id := "dQw4w9WgXcQ";
    assert forall k :: 0 <= k < |id| ==> IsIdChar(id[k]);
  }

  /** The watch-page URL yields its `v` parameter. */
  lemma SampleWatchUrl()
    ensures ExtractVideoId("https://www.youtube.com/watch?v=dQw4w9WgXcQ") == Some("dQw4w9WgXcQ")
  {
    SampleIdWellFormed();
    WatchShape("dQw4w9WgXcQ", "");
    assert "https://www.youtube.com/watch?v=" + "dQw4w9WgXcQ" + "" == "https://www.youtube.com/watch?v=dQw4w9WgXcQ";
  }

  /** The short link yields the path segment after `youtu.be/`. */
  lemma SampleShortLinkUrl()
    ensures ExtractVideoId("https://youtu.be/dQw4w9WgXcQ") == Some("dQw4w9WgXcQ")
  {
    SampleIdWellFormed();
    ShortLinkShape("dQw4w9WgXcQ", "");
    assert "https://youtu.be/" + "dQw4w9WgXcQ" + "" == "https://youtu.be/dQw4w9WgXcQ";
  }

  /** The embed URL yields the segment after `embed/`. */
  lemma SampleEmbedUrl()
    ensures ExtractVideoId("https://www.youtube.com/embed/dQw4w9WgXcQ") == Some("dQw4w9WgXcQ")
  {
    SampleIdWellFormed();
    EmbedShape("dQw4w9WgXcQ", "");
    assert "https://www.youtube.com/embed/" + "dQw4w9WgXcQ" + "" == "https://www.youtube.com/embed/dQw4w9WgXcQ";
  }

  /** The shorts URL yields the segment after `shorts/`. */
  lemma SampleShortsUrl()
    ensures ExtractVideoId("https://www.youtube.com/shorts/dQw4w9WgXcQ") == Some("dQw4w9WgXcQ")
  {
    SampleIdWellFormed();
    ShortsShape("dQw4w9WgXcQ", "");
    assert "https://www.youtube.com/shorts/" + "dQw4w9WgXcQ" + "" == "https://www.youtube.com/shorts/dQw4w9WgXcQ";
  }

  /** Identifier characters beyond the eleventh are not part of the identifier. */
  lemma SampleLongerToken()
    ensures ExtractVideoId("https://youtu.be/dQw4w9WgXcQxyz") == Some("dQw4w9WgXcQ")
  {
    SampleIdWellFormed();
    ShortLinkShape("dQw4w9WgXcQ", "xyz");
    assert "https://youtu.be/" + "dQw4w9WgXcQ" + "xyz" == "https://youtu.be/dQw4w9WgXcQxyz";
  }

  /** Fewer than twelve characters from `lo` to the end leave room for no candidate. */
  lemma ShortTailBlocked(s: string, lo: nat)
    requires lo <= |s| < lo + 1 + IdLength
    ensures NoCandidateIn(s, lo, |s| + 1)
  {
  }

  /** A URL with no candidate position yields nothing. */
  lemma NoneWithoutCandidate(url: string)
    requires NoCandidateIn(url, 0, |url| + 1)
    ensures ExtractVideoId(url) == None
  {
    ExtractVideoIdLeftmost(url);
  }

  /** A URL without any video-identifier shape yields nothing. */
  lemma ForeignUrl()
    ensures ExtractVideoId("https://example.com/video") == None
  {
    var url := "https://example.com/video";
    SchemeAndHostScan("example.com", "/video", 7);
    assert "https://" + "example.com" + "/video" == url;
    ShortTailBlocked(url, 19);
    NoCandidateJoin(url, 0, 19, |url| + 1);
    NoneWithoutCandidate(url);
  }
}
