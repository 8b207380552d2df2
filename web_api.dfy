/**
 * The routes of src/mailorca/web.py (and the same routes in mailorca.py)
 * that read the store: the JSON list and detail projections, which copy a
 * record and drop its `raw` bytes, the `.eml` download, and the 404 branch
 * of the detail page. Template rendering and the HTTP framework are not
 * modelled; a route's answer is a value.
 */
module WebApi {
  import opened Wrappers
  import opened MailParse
  import opened Store

  /** A record without its `raw` key: what `m.copy()` followed by `del c["raw"]` leaves. */
  datatype Summary = Summary(id: string, timestamp: Timestamp, parsed: Parsed)

  /** `HTTPException(status_code, detail)`. */
  datatype HttpError = HttpError(status: int, detail: string)

  /** `/api/mails/{id}`: the projected record, or `{"error": "Not found"}` with status 404. */
  datatype ApiReply = Found(mail: Summary) | NotFound(status: int, error: string)

  /** The download response: body, media type and `Content-Disposition` header. */
  datatype Download = Download(content: Bytes, mediaType: string, disposition: string)

  const MailNotFound := HttpError(404, "Mail not found")
  const ApiNotFound := NotFound(404, "Not found")

  /** Copy a record and drop `raw`. */
  function Project(r: Record): Summary
  {
    Summary(r.id, r.timestamp, r.parsed)
  }

  /** Put `raw` back into a projection. */
  function Restore(s: Summary, raw: Bytes): Record
  {
    Record(s.id, s.timestamp, raw, s.parsed)
  }

  /** Dropping `raw` loses nothing else: putting it back gives the stored record. */
  lemma RestoreProject(r: Record)
    ensures Restore(Project(r), r.raw) == r
  {
  }

  /** Two records project alike exactly when they differ at most in `raw`. */
  lemma ProjectForgetsOnlyRaw(r1: Record, r2: Record)
    ensures Project(r1) == Project(r2) <==> r1 == Restore(Project(r2), r1.raw)
  {
  }

  /**
   * `api_list`: one projection per stored record, in store order. The
   * store is not modified (the source edits copies).
   */
  method ApiList(store: MailStore) returns (safe: seq<Summary>)
    ensures |safe| == |store.mails|
    ensures forall i :: 0 <= i < |safe| ==> safe[i] == Project(store.mails[i])
  {
    safe := [];
    for i := 0 to |store.mails|
      invariant |safe| == i
      invariant forall j :: 0 <= j < i ==> safe[j] == Project(store.mails[j])
    {
      var c := Project(store.mails[i]);
      safe := safe + [c];
    }
  }

  /** Whatever comes out of `api_list`, with the raw buffers back, is the store's list. */
  lemma ApiListRestores(mails: seq<Record>, safe: seq<Summary>)
    requires |safe| == |mails|
    requires forall i :: 0 <= i < |safe| ==> safe[i] == Project(mails[i])
    ensures forall i :: 0 <= i < |safe| ==> Restore(safe[i], mails[i].raw) == mails[i]
    ensures forall i :: 0 <= i < |safe| ==> safe[i].id == mails[i].id
  {
  }

  /** `api_detail`: the projected first match, or the JSON 404. */
  method ApiDetail(store: MailStore, id: string) returns (reply: ApiReply)
    ensures FindById(store.mails, id).None? ==> reply == ApiNotFound
    ensures FindById(store.mails, id).Some? ==>
              reply == Found(Project(FindById(store.mails, id).value)) && reply.mail.id == id
  {
    var mail := store.Get(id);
    if mail.None? {
      return ApiNotFound;
    }
    reply := Found(Project(mail.value));
  }

  /** `detail`: the record the page is rendered from, or 404 "Mail not found". */
  method Detail(store: MailStore, id: string) returns (r: Result<Record, HttpError>)
    ensures r == (match FindById(store.mails, id)
                    case None => Failure(MailNotFound)
                    case Some(m) => Success(m))
    ensures r.Success? ==> r.value.id == id
  {
    var mail := store.Get(id);
    if mail.None? {
      return Failure(MailNotFound);
    }
    r := Success(mail.value);
  }

  /** The `Content-Disposition` value: `attachment; filename=<id>.eml`. */
  function Disposition(id: string): string
  {
    "attachment; filename=" + id + ".eml"
  }

  /** The file name can be read back out of the header: the id is not altered. */
  lemma DispositionReadsBack(id: string)
    ensures |Disposition(id)| == |id| + 25
    ensures Disposition(id)[21..|Disposition(id)| - 4] == id
    ensures Disposition(id)[|Disposition(id)| - 4..] == ".eml"
  {
  }

  /**
   * `download_raw`: the stored bytes unchanged, as `message/rfc822`, named
   * after the requested id; 404 "Mail not found" for an unknown id.
   */
  method DownloadRaw(store: MailStore, id: string) returns (r: Result<Download, HttpError>)
    ensures FindById(store.mails, id).None? <==> r == Failure(MailNotFound)
    ensures r.Success? ==>
              r.value == Download(FindById(store.mails, id).value.raw, "message/rfc822", Disposition(id))
  {
    var mail := store.Get(id);
    if mail.None? {
      return Failure(MailNotFound);
    }
    var filename := id + ".eml";
    r := Success(Download(mail.value.raw, "message/rfc822", "attachment; filename=" + filename));
  }

  /** A record just stored (with positive capacity) is downloadable with its exact bytes. */
  lemma DownloadAfterAdd(mails: seq<Record>, rec: Record, maxHistory: int)
    requires maxHistory >= 1
    ensures FindById(Added(mails, rec, maxHistory), rec.id).Some?
    ensures FindById(Added(mails, rec, maxHistory), rec.id).value.raw == rec.raw
  {
    FindAfterAdd(mails, rec, maxHistory);
  }
}
