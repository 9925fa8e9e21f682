/** `search_web` in agent/gather_web.py: the provider's hits are walked in order and each hit's
    `href` is kept unless it contains a denylisted domain. The search provider itself is not
    part of this model; its hits are the input. */
module GatherWeb {
  import opened PyText
  import opened PyValue
  import opened Seqs
  import opened Dedup

  /** Domains known to block scraping. */
  const DENYLIST: seq<string> := ["sciencedirect.com", "weforum.org", "zhihu.com", "costco.com"]

  /** `any(bad in url for bad in DENYLIST)`: some entry occurs in the URL as a substring,
      compared character by character (no case folding). */
  predicate Denied(url: string) {
    exists i | 0 <= i < |DENYLIST| :: Contains(url, DENYLIST[i])
  }

  predicate Allowed(url: string) { !Denied(url) }

  /** One provider hit: a dictionary of string fields. */
  type Hit = map<string, string>

  predicate AllHaveHref(hits: seq<Hit>) {
    forall i :: 0 <= i < |hits| ==> "href" in hits[i]
  }

  /** The `href` of every hit, in provider order. */
  function Hrefs(hits: seq<Hit>): (r: seq<string>)
    requires AllHaveHref(hits)
    ensures |r| == |hits| && forall i :: 0 <= i < |hits| ==> r[i] == hits[i]["href"]
    decreases |hits|
  {
    if hits == [] then [] else Hrefs(hits[..|hits| - 1]) + [hits[|hits| - 1]["href"]]
  }

  /** What `search_web` returns for the provider's hits: `r['href']` raises `KeyError` on a hit
      without one; otherwise the hrefs that are not denied, in order. */
  function SearchWebSpec(hits: seq<Hit>): Result<seq<string>> {
    if AllHaveHref(hits) then Ok(Filter(Hrefs(hits), Allowed)) else Raised(KeyError)
  }

  /** The loop of `search_web`: skip (`continue`) a denied URL, append every other one. */
  method SearchWeb(hits: seq<Hit>) returns (r: Result<seq<string>>)
    ensures r == SearchWebSpec(hits)
  {
    var results: seq<string> := [];
    var i := 0;
    while i < |hits|
      invariant 0 <= i <= |hits|
      invariant AllHaveHref(hits[..i])
      invariant results == Filter(Hrefs(hits[..i]), Allowed)
      decreases |hits| - i
    {
      var hit := hits[i];
      if "href" !in hit {
        assert !AllHaveHref(hits);
        return Raised(KeyError);
      }
      var url := hit["href"];
      KeptStep(hits, i);
      i := i + 1;
      if Denied(url) {
        continue;
      }
      results := results + [url];
    }
    assert hits[..i] == hits;
    r := Ok(results);
  }

  /** One more hit extends the kept URLs by its href exactly when that href is allowed. */
  lemma KeptStep(hits: seq<Hit>, i: nat)
    requires i < |hits| && AllHaveHref(hits[..i]) && "href" in hits[i]
    ensures AllHaveHref(hits[..i + 1])
    ensures Filter(Hrefs(hits[..i + 1]), Allowed)
      == Filter(Hrefs(hits[..i]), Allowed) + (if Allowed(hits[i]["href"]) then [hits[i]["href"]] else [])
  {
    assert hits[..i + 1][..i] == hits[..i];
    assert Hrefs(hits[..i + 1]) == Hrefs(hits[..i]) + [hits[i]["href"]];
  }

  /** `search_web` raises exactly when some hit has no `href`. */
  lemma SearchWebRaises(hits: seq<Hit>)
    ensures SearchWebSpec(hits).Raised? <==> exists i :: 0 <= i < |hits| && "href" !in hits[i]
  {
  }

  /** A URL is in the output exactly when some hit carries it and it contains no denylisted
      domain; the output keeps the provider's order and is no longer than the hits. */
  lemma SearchWebKeeps(hits: seq<Hit>, url: string)
    requires SearchWebSpec(hits).Ok?
    ensures url in SearchWebSpec(hits).value <==>
      (exists i :: 0 <= i < |hits| && hits[i]["href"] == url) && !Denied(url)
    ensures IsSubsequence(SearchWebSpec(hits).value, Hrefs(hits))
    ensures |SearchWebSpec(hits).value| <= |hits|
  {
    var hs := Hrefs(hits);
    FilterMember(hs, Allowed, url);
    FilterIsSubsequence(hs, Allowed);
    if url in hs {
      var i :| 0 <= i < |hs| && hs[i] == url;
      assert hits[i]["href"] == url;
    }
  }

  /** With no hit denied, every href is returned as is. */
  lemma SearchWebNothingDenied(hits: seq<Hit>)
    requires AllHaveHref(hits)
    requires forall i :: 0 <= i < |hits| ==> !Denied(hits[i]["href"])
    ensures SearchWebSpec(hits) == Ok(Hrefs(hits))
  {
    FilterAll(Hrefs(hits), Allowed);
  }

  /** The match is case-sensitive: the denylisted domain is caught, its upper-case spelling
      is not. */
  lemma DenylistCaseSensitive()
    ensures Denied("zhihu.com")
    ensures !Denied("ZHIHU.COM")
  {
    ContainsSelf("zhihu.com");
    assert Contains("zhihu.com", DENYLIST[2]);
    var u := "ZHIHU.COM";
    forall i | 0 <= i < |DENYLIST|
      ensures !Contains(u, DENYLIST[i])
    {
      if i == 2 {
        forall k | 0 <= k <= |u| - |DENYLIST[i]|
          ensures !OccursAt(u, DENYLIST[i], k)
        {
          assert k == 0;
          assert u[0] != DENYLIST[i][0];
        }
      }
    }
  }
}
