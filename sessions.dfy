/**
 * The one-shot session flags of the views. A POST that succeeds (or fails in a way
 * the user must be told about) sets a flag and redirects; the outcome page renders
 * only while its flag is present and pops it, otherwise it redirects onward.
 */
module Sessions {

  /** What a view returns: a rendered template with its boolean context entries, a redirect, or an escaped exception. */
  datatype Response =
    | Render(template: string, context: map<string, bool>)
    | Redirect(target: string)
    | ServerError(exception: string)

  /** `request.session`, reduced to the boolean flags the views set. */
  class Session {
    var data: map<string, bool>

    constructor (data: map<string, bool>)
      ensures this.data == data
    {
      this.data := data;
    }
  }

  /** An outcome page: its flag, its template and where it redirects without the flag. */
  datatype OutcomePage = OutcomePage(flag: string, template: string, fallback: string)

  /** The answer of an outcome page to a GET, with the session after it. */
  function FlagPage(data: map<string, bool>, page: OutcomePage): (r: (Response, map<string, bool>))
    ensures r.0.Render? <==> page.flag in data
    ensures r.0.Render? ==> r.0.template == page.template && page.flag !in r.1
    ensures !r.0.Render? ==> r.0 == Redirect(page.fallback)
    ensures r.1 == data - {page.flag}
  {
    if page.flag in data then (Render(page.template, map[]), data - {page.flag}) else (Redirect(page.fallback), data)
  }

  /** The outcome page's `get`, step by step. */
  method ShowOnce(session: Session, page: OutcomePage) returns (resp: Response)
    modifies session
    ensures (resp, session.data) == FlagPage(old(session.data), page)
  {
    if page.flag in session.data {
      session.data := session.data - {page.flag};
      return Render(page.template, map[]);
    }
    return Redirect(page.fallback);
  }

  /** A request in a session: a view that sets `flag`, or a GET of an outcome page. */
  datatype SessionRequest = SetFlag(flag: string, value: bool) | Visit(page: OutcomePage)

  /** The session after a request. */
  function Apply(data: map<string, bool>, req: SessionRequest): map<string, bool> {
    match req
    case SetFlag(f, v) => data[f := v]
    case Visit(p) => FlagPage(data, p).1
  }

  /** How many times the requests render an outcome page whose flag is `flag`. */
  function Renders(data: map<string, bool>, reqs: seq<SessionRequest>, flag: string): nat
    decreases |reqs|
  {
    if |reqs| == 0 then 0
    else
      var r := reqs[0];
      var here := if r.Visit? && r.page.flag == flag && flag in data then 1 else 0;
      here + Renders(Apply(data, r), reqs[1..], flag)
  }

  /** How many of the requests set `flag`. */
  function Sets(reqs: seq<SessionRequest>, flag: string): nat
    decreases |reqs|
  {
    if |reqs| == 0 then 0
    else (if reqs[0].SetFlag? && reqs[0].flag == flag then 1 else 0) + Sets(reqs[1..], flag)
  }

  /**
   * Each outcome page renders at most once per setting of its flag: over any series
   * of requests, the renders of pages keyed by `flag` number at most the times it
   * was set, plus one if it was already present.
   */
  lemma {:induction false} RendersAtMostOncePerSet(data: map<string, bool>, reqs: seq<SessionRequest>, flag: string)
    ensures Renders(data, reqs, flag) <= Sets(reqs, flag) + (if flag in data then 1 else 0)
    decreases |reqs|
  {
    if |reqs| > 0 {
      RendersAtMostOncePerSet(Apply(data, reqs[0]), reqs[1..], flag);
    }
  }

  /** Right after a render, the same outcome page redirects. */
  lemma SecondVisitRedirects(data: map<string, bool>, page: OutcomePage)
    requires FlagPage(data, page).0.Render?
    ensures FlagPage(FlagPage(data, page).1, page).0 == Redirect(page.fallback)
  {
  }
}
