/** The earliest server of cmd/shortener/server/main.go: a process-wide map from `"/"+code` to URL,
    with no file and no counter, and the host derivation of `run`. */
module ServerMain {
  import opened Wrappers
  import opened ShortCode
  import opened Handlers

  const Scheme := "http://"

  class Server {
    var pairsOfURLs: map<string, string>

    constructor ()
      ensures pairsOfURLs == map[]
    {
      pairsOfURLs := map[];
    }

    /** `postURLHandler`: a non-POST request, an unreadable or empty body, or a failed random read
        answers 400 and leaves the map alone; otherwise the body is stored under `"/"+code` and the
        answer is 201 with the short address. */
    method PostURLHandler(httpMethod: string, body: Option<string>, rnd: RandomRead, responseAddress: string)
      returns (resp: Response)
      requires Fills(rnd, CodeLength)
      modifies this
      ensures httpMethod != MethodPost || body == None || body == Some("") || rnd.ReadFailed? ==>
        resp == Status(StatusBadRequest) && pairsOfURLs == old(pairsOfURLs)
      ensures httpMethod == MethodPost && body.Some? && body.value != "" && rnd.ReadOk? ==>
        var code := GenerateShortURL(CodeLength, rnd).value;
        && resp == Response(StatusCreated, ShortAddress(responseAddress, code), "")
        && pairsOfURLs == old(pairsOfURLs)["/" + code := body.value]
    {
      if httpMethod != MethodPost || body == None || |body.value| == 0 {
        return Status(StatusBadRequest);
      }
      var generated := GenerateShortURL(CodeLength, rnd);
      if generated.Failure? {
        return Status(StatusBadRequest);
      }
      pairsOfURLs := pairsOfURLs["/" + generated.value := body.value];
      resp := Response(StatusCreated, ShortAddress(responseAddress, generated.value), "");
    }

    /** `getURLHandler`: the whole request path is the key; a stored path redirects with 307 to
        its URL, anything else answers 400. */
    function GetURLHandler(httpMethod: string, path: string): (r: Response)
      reads this
      ensures r.status == StatusTemporaryRedirect <==> httpMethod == MethodGet && path != "" && path in pairsOfURLs
      ensures r.status == StatusTemporaryRedirect ==> r == Response(StatusTemporaryRedirect, "", pairsOfURLs[path])
      ensures r.status != StatusTemporaryRedirect ==> r == Status(StatusBadRequest)
    {
      if httpMethod != MethodGet || |path| == 0 || path !in pairsOfURLs then Status(StatusBadRequest)
      else Response(StatusTemporaryRedirect, "", pairsOfURLs[path])
    }
  }

  /** A POST followed by a GET of the returned path redirects to the posted URL. */
  method PostThenGet(server: Server, url: string, rnd: RandomRead, responseAddress: string)
    returns (posted: Response, fetched: Response)
    requires Fills(rnd, CodeLength) && rnd.ReadOk? && url != ""
    modifies server
    ensures posted.status == StatusCreated
    ensures fetched == Response(StatusTemporaryRedirect, "", url)
  {
    posted := server.PostURLHandler(MethodPost, Some(url), rnd, responseAddress);
    fetched := server.GetURLHandler(MethodGet, "/" + GenerateShortURL(CodeLength, rnd).value);
  }

  /** `pat` occurs in `s` starting at `i`. */
  predicate OccursAt(s: string, pat: string, i: int)
  {
    0 <= i && i + |pat| <= |s| && s[i..i + |pat|] == pat
  }

  predicate Occurs(s: string, pat: string)
  {
    exists i | 0 <= i <= |s| :: OccursAt(s, pat, i)
  }

  /** `strings.ReplaceAll(s, pat, "")` for a non-empty `pat`: scan left to right and drop every
      non-overlapping occurrence. */
  function RemoveAll(s: string, pat: string): (r: string)
    requires |pat| > 0
    ensures |r| <= |s|
    decreases |s|
  {
    if |s| < |pat| then s
    else if s[..|pat|] == pat then RemoveAll(s[|pat|..], pat)
    else [s[0]] + RemoveAll(s[1..], pat)
  }

  /** When the text does not start with `pat`, its occurrences are those of its tail. */
  lemma OccursInTail(s: string, pat: string)
    requires |pat| > 0 && |s| >= |pat| && s[..|pat|] != pat
    ensures Occurs(s, pat) <==> Occurs(s[1..], pat)
  {
    if Occurs(s[1..], pat) {
      var i :| 0 <= i <= |s| - 1 && OccursAt(s[1..], pat, i);
      assert s[i + 1..i + 1 + |pat|] == s[1..][i..i + |pat|];
      assert OccursAt(s, pat, i + 1);
    }
    if Occurs(s, pat) {
      var i :| 0 <= i <= |s| && OccursAt(s, pat, i);
      assert i != 0;
      assert s[1..][i - 1..i - 1 + |pat|] == s[i..i + |pat|];
      assert OccursAt(s[1..], pat, i - 1);
    }
  }

  /** Each occurrence found shortens the text. */
  lemma {:induction false} RemoveAllShrinks(s: string, pat: string)
    requires |pat| > 0 && Occurs(s, pat)
    ensures |RemoveAll(s, pat)| < |s|
    decreases |s|
  {
    var i :| 0 <= i <= |s| && OccursAt(s, pat, i);
    if s[..|pat|] != pat {
      OccursInTail(s, pat);
      RemoveAllShrinks(s[1..], pat);
    }
  }

  /** Nothing is removed exactly when nothing occurs. */
  lemma {:induction false} RemoveAllUnchanged(s: string, pat: string)
    requires |pat| > 0
    ensures RemoveAll(s, pat) == s <==> !Occurs(s, pat)
    decreases |s|
  {
    if |s| < |pat| {
      assert forall i | 0 <= i <= |s| :: !OccursAt(s, pat, i);
    } else if s[..|pat|] == pat {
      assert OccursAt(s, pat, 0);
    } else {
      RemoveAllUnchanged(s[1..], pat);
      OccursInTail(s, pat);
      assert RemoveAll(s, pat) == [s[0]] + RemoveAll(s[1..], pat);
      assert s == [s[0]] + s[1..];
    }
  }

  /** The host `run` listens on: the address with every `http://` removed. */
  function Host(addr: string): (host: string)
    ensures |host| <= |addr|
  {
    RemoveAll(addr, Scheme)
  }

  /** An address that begins with the scheme and holds it nowhere else loses exactly that prefix;
      one without the scheme is used as it is. */
  lemma HostStripsScheme(hostPort: string)
    requires !Occurs(hostPort, Scheme)
    ensures Host(Scheme + hostPort) == hostPort
    ensures Host(hostPort) == hostPort
  {
    var addr := Scheme + hostPort;
    assert addr[..|Scheme|] == Scheme && addr[|Scheme|..] == hostPort;
    RemoveAllUnchanged(hostPort, Scheme);
  }

  /** The default address of the configuration. */
  lemma HostOfDefaultAddress()
    ensures Host("http://localhost:8080") == "localhost:8080"
  {
    assert "http://localhost:8080" == Scheme + "localhost:8080";
    var h := "localhost:8080";
    forall i | 0 <= i <= |h| ensures !OccursAt(h, Scheme, i) {
      if i + |Scheme| <= |h| {
        assert h[i + 5] != Scheme[5] by {
          assert i == 0 || i == 1 || i == 2 || i == 3 || i == 4 || i == 5 || i == 6 || i == 7;
        }
      }
    }
    HostStripsScheme("localhost:8080");
  }
}
