/** The raw fetcher: the fixed configuration, the URL built for one day and
    one LDC, and the fallback from the updated revision to the original one.
    The HTTP request itself is an oracle `get` from URL to response. */
module Fetch {
  import opened Core
  import opened Strings
  import opened Calendar
  import opened Template

  /** `self.ldc_state`: LDC code to two-letter state code. */
  const LDC_STATE: map<string, string> := map["CNM" := "MD", "CND" := "DE", "CNV" := "VA"]

  /** `self.ldcs`: the LDCs the fetcher accepts, in the order the range request visits them. */
  const LDCS: seq<string> := ["CND", "CNM"]

  /** Revision indices tried by the fetcher: the updated file (2) before the original (1). */
  const REVISIONS: seq<nat> := [2, 1]

  /** One HTTP response: its status code and its text. */
  datatype Response = Response(status: int, body: string)

  /** Why the fetcher returns no text. */
  datatype FetchError =
    | Rejected(ldc: string)     // the LDC is not one of `LDCS`
    | NotFound(status: int)     // neither revision answered 200; the last status

  /** The replacement fields of one request (`params` in `_retrieve_raw_data`). */
  function RequestParams(dt: Day, ldc: string, revision: nat): Params
    requires ldc in LDC_STATE
  {
    Params(stateLower := Lower(LDC_STATE[ldc]), yr := Digits(dt.year), mo := Pad2(dt.month),
           sDt := CompactDate(dt), stateUpper := Upper(LDC_STATE[ldc]), urlIndex := Digits(revision))
  }

  /** The URL of one revision of one day's file for one LDC. */
  function Url(dt: Day, ldc: string, revision: nat): string
    requires ldc in LDC_STATE
  {
    Format(DELMARVA_URL, RequestParams(dt, ldc, revision))
  }

  /** Every accepted LDC has a state; `CNV` has one but is not accepted. Both
      case forms of the state are the two-letter code. */
  lemma StateCodes()
    ensures forall ldc :: ldc in LDCS ==> ldc in LDC_STATE
    ensures "CNV" in LDC_STATE && "CNV" !in LDCS
    ensures Lower(LDC_STATE["CND"]) == "de" && Upper(LDC_STATE["CND"]) == "DE"
    ensures Lower(LDC_STATE["CNM"]) == "md" && Upper(LDC_STATE["CNM"]) == "MD"
  {
    UpperLower("DE");
    UpperLower("MD");
  }

  /** The URL field by field: prefix, lower-case state, four-digit year,
      two-digit month, `YYYYMMDD`, upper-case state, `A`, revision, `.txt`. */
  lemma UrlSpelled(dt: Day, ldc: string, revision: nat)
    requires ldc in LDC_STATE
    ensures Url(dt, ldc, revision) ==
      URL_PREFIX + Lower(LDC_STATE[ldc]) + "/" + Digits(dt.year) + "/" + Pad2(dt.month) + "/"
      + CompactDate(dt) + Upper(LDC_STATE[ldc]) + "A" + Digits(revision) + ".txt"
    ensures |Digits(dt.year)| == 4 && |Pad2(dt.month)| == 2 && Value(Pad2(dt.month)) == dt.month
  {
    FormatUrl(RequestParams(dt, ldc, revision));
    DigitsLength(dt.year);
    Pad2Spells(dt.month);
  }

  /** The two revisions of one day name two different files. */
  lemma RevisionsDiffer(dt: Day, ldc: string)
    requires ldc in LDC_STATE
    ensures Url(dt, ldc, 2) != Url(dt, ldc, 1)
  {
    UrlSpelled(dt, ldc, 2);
    UrlSpelled(dt, ldc, 1);
    var u2, u1 := Url(dt, ldc, 2), Url(dt, ldc, 1);
    assert |u2| == |u1|;
    assert u2[|u2| - 5] == '2' && u1[|u1| - 5] == '1';
  }

  /** The URLs tried for an accepted LDC, in order. */
  function Attempts(dt: Day, ldc: string): (urls: seq<string>)
    requires ldc in LDCS
    ensures |urls| == |REVISIONS|
    ensures forall k :: 0 <= k < |urls| ==> urls[k] == Url(dt, ldc, REVISIONS[k])
  {
    StateCodes();
    seq(|REVISIONS|, k requires 0 <= k < |REVISIONS| => Url(dt, ldc, REVISIONS[k]))
  }

  /** Position of the first URL answered with status 200, or `|urls|` when none is. */
  function FirstOk(urls: seq<string>, get: string -> Response): (k: nat)
    ensures k <= |urls|
    ensures forall j :: 0 <= j < k ==> get(urls[j]).status != 200
    ensures k < |urls| ==> get(urls[k]).status == 200
  {
    if urls == [] || get(urls[0]).status == 200 then 0 else 1 + FirstOk(urls[1..], get)
  }

  /** The result of requesting `urls` in order until one is answered with 200:
      that response's text, or else the status of the last one requested. */
  function FirstBody(urls: seq<string>, get: string -> Response): Result<string, FetchError>
    requires |urls| >= 1
  {
    var k := FirstOk(urls, get);
    if k < |urls| then Success(get(urls[k]).body) else Failure(NotFound(get(urls[|urls| - 1]).status))
  }

  /** The URLs requested in that search: up to and including the first answered with 200. */
  function Tried(urls: seq<string>, get: string -> Response): seq<string> {
    var k := FirstOk(urls, get);
    if k < |urls| then urls[..k + 1] else urls
  }

  /** What `_retrieve_raw_data` returns. */
  function Retrieve(dt: Day, ldc: string, get: string -> Response): Result<string, FetchError> {
    if ldc !in LDCS then Failure(Rejected(ldc)) else FirstBody(Attempts(dt, ldc), get)
  }

  /** The URLs `_retrieve_raw_data` requests, in order; none at all for a rejected LDC. */
  function Requested(dt: Day, ldc: string, get: string -> Response): seq<string> {
    if ldc !in LDCS then [] else Tried(Attempts(dt, ldc), get)
  }

  /** `_retrieve_raw_data`: reject an unknown LDC before any request, then
      request revision 2 and, only when that is not answered with 200,
      revision 1. Returns the first 200 body and the URLs it requested. */
  method RetrieveRawData(dt: Day, ldc: string, get: string -> Response)
    returns (r: Result<string, FetchError>, requested: seq<string>)
    ensures r == Retrieve(dt, ldc, get)
    ensures requested == Requested(dt, ldc, get)
  {
    if ldc !in LDCS {
      return Failure(Rejected(ldc)), [];
    }
    var urls := Attempts(dt, ldc);
    r, requested := RequestInOrder(urls, get);
  }

  /** The `for i in (2, 1)` loop of `_retrieve_raw_data`, over the URLs of the
      two revisions: request each in turn and return on the first 200. */
  method RequestInOrder(urls: seq<string>, get: string -> Response)
    returns (r: Result<string, FetchError>, requested: seq<string>)
    requires |urls| >= 1
    ensures r == FirstBody(urls, get)
    ensures requested == Tried(urls, get)
  {
    requested := [];
    var status := 0;
    for i := 0 to |urls|
      invariant requested == urls[..i]
      invariant forall j :: 0 <= j < i ==> get(urls[j]).status != 200
      invariant i > 0 ==> status == get(urls[i - 1]).status
    {
      var response := get(urls[i]);
      requested := requested + [urls[i]];
      if response.status == 200 {
        FirstOkAt(urls, get, i);
        return Success(response.body), requested;
      }
      status := response.status;
    }
    FirstOkAt(urls, get, |urls|);
    r := Failure(NotFound(status));
  }

  /** `FirstOk` is the position where the scan stopped. */
  lemma {:induction false} FirstOkAt(urls: seq<string>, get: string -> Response, k: nat)
    requires k <= |urls|
    requires forall j :: 0 <= j < k ==> get(urls[j]).status != 200
    requires k < |urls| ==> get(urls[k]).status == 200
    ensures FirstOk(urls, get) == k
  {
    if k > 0 {
      FirstOkAt(urls[1..], get, k - 1);
    }
  }

  /** The fallback order spelled out: an unknown LDC is rejected with no
      request made; revision 2's 200 body wins outright; otherwise revision 1
      is requested and its 200 body is returned; otherwise the last status. */
  lemma RetrieveOrder(dt: Day, ldc: string, get: string -> Response)
    ensures ldc !in LDCS ==> Retrieve(dt, ldc, get) == Failure(Rejected(ldc)) && Requested(dt, ldc, get) == []
    ensures ldc in LDCS ==>
      var u2, u1 := Url(dt, ldc, 2), Url(dt, ldc, 1);
      && (get(u2).status == 200 ==>
            Retrieve(dt, ldc, get) == Success(get(u2).body) && Requested(dt, ldc, get) == [u2])
      && (get(u2).status != 200 && get(u1).status == 200 ==>
            Retrieve(dt, ldc, get) == Success(get(u1).body) && Requested(dt, ldc, get) == [u2, u1])
      && (get(u2).status != 200 && get(u1).status != 200 ==>
            Retrieve(dt, ldc, get) == Failure(NotFound(get(u1).status)) && Requested(dt, ldc, get) == [u2, u1])
  {
    if ldc in LDCS {
      AttemptsInOrder(dt, ldc);
      TwoAttempts(Url(dt, ldc, 2), Url(dt, ldc, 1), get);
    }
  }

  /** An accepted LDC's two URLs, revision 2 first. */
  lemma AttemptsInOrder(dt: Day, ldc: string)
    requires ldc in LDCS
    ensures ldc in LDC_STATE && Attempts(dt, ldc) == [Url(dt, ldc, 2), Url(dt, ldc, 1)]
  {
    StateCodes();
  }

  /** Requesting two URLs in order: the first 200 wins, else the second's status. */
  lemma TwoAttempts(u2: string, u1: string, get: string -> Response)
    ensures get(u2).status == 200 ==>
      FirstBody([u2, u1], get) == Success(get(u2).body) && Tried([u2, u1], get) == [u2]
    ensures get(u2).status != 200 && get(u1).status == 200 ==>
      FirstBody([u2, u1], get) == Success(get(u1).body) && Tried([u2, u1], get) == [u2, u1]
    ensures get(u2).status != 200 && get(u1).status != 200 ==>
      FirstBody([u2, u1], get) == Failure(NotFound(get(u1).status)) && Tried([u2, u1], get) == [u2, u1]
  {
    var urls := [u2, u1];
    assert urls[1..] == [u1];
    assert urls[..1] == [u2];
  }
}
