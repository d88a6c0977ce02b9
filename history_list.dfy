/**
 * The history panel (src/components/HistoryList.jsx): one card per record, with delete, edit
 * and stats calls, the toast that reports their outcome, and the best-effort rewrite of the
 * stored list after an edit.
 */
module HistoryView {
  import opened Wrappers
  import opened Records
  import opened Storage
  import opened Validation
  import opened Remote
  import opened History
  import Shortener

  const EnterUrlMessage := "Please enter a URL"
  const InvalidUrlMessage := "Please enter a valid URL"
  const SchemeMessage := "Please enter a valid URL (http:// or https://)"
  const DeletedMessage := "Deleted"
  const DeleteErrorMessage := "Error deleting"
  const UpdatedMessage := "Updated"
  const UpdateErrorMessage := "Error updating"
  const StatsMessage := "Stats updated"
  const StatsErrorMessage := "Error fetching stats"

  /** The card's message for each rejection. */
  function CardMessage(why: Rejection): string
  {
    match why
    case Empty => EnterUrlMessage
    case Malformed => InvalidUrlMessage
    case UnsupportedScheme => SchemeMessage
  }

  /**
   * The edit path's own copy of the validation ladder, with its early returns:
   * it is the shared ladder with the card's messages.
   */
  function CardValidate(raw: string, parse: string -> Option<string>): (r: Result<string, string>)
    ensures r == Explain(CheckUrl(raw, parse), CardMessage)
  {
    var value := Trim(raw);
    if value == [] then Failure(EnterUrlMessage)
    else if HasWhitespace(value) then Failure(InvalidUrlMessage)
    else match parse(value)
      case None => Failure(InvalidUrlMessage)
      case Some(protocol) =>
        if protocol != "http:" && protocol != "https:" then Failure(SchemeMessage) else Success(value)
  }

  /**
   * The two copies of the ladder accept exactly the same inputs, with the same value, and
   * show the same message for every rejection except the protocol one, whose wording differs.
   */
  lemma CallSitesAgree(raw: string, parse: string -> Option<string>)
    ensures Shortener.FormValidate(raw, parse).Success? <==> CardValidate(raw, parse).Success?
    ensures Shortener.FormValidate(raw, parse).Success? ==>
      Shortener.FormValidate(raw, parse).value == CardValidate(raw, parse).value
    ensures CheckUrl(raw, parse) != Failure(UnsupportedScheme) ==>
      Shortener.FormValidate(raw, parse) == CardValidate(raw, parse)
    ensures CheckUrl(raw, parse) == Failure(UnsupportedScheme) ==>
      Shortener.FormValidate(raw, parse) != CardValidate(raw, parse)
  {
  }

  /** The delete call's success rule: a 204 status exactly. */
  predicate DeleteAccepted(reply: Reply<()>): (b: bool)
    ensures b <==> reply == Received(204, ())
    ensures b ==> IsOk(reply.status)
  {
    assert reply.Received? ==> reply.data == ();
    reply.Received? && reply.status == 204
  }

  /**
   * The two delete rules differ: every reply the panel accepts is accepted by `useApi.del`,
   * but `useApi.del` also accepts the other ok statuses, such as 200, which the panel reports as an error.
   */
  lemma DeleteRulesDiffer(reply: Reply<()>)
    ensures DeleteAccepted(reply) ==> Del(reply).Success?
    ensures reply == Received(200, ()) ==> Del(reply).Success? && !DeleteAccepted(reply)
  {
  }

  /** The timestamp an edit records: the service's value unless missing or empty, else the current time. */
  function Stamp(fromService: Option<string>, now: string): (at: string)
    ensures fromService.Some? && fromService.value != "" ==> at == fromService.value
    ensures fromService == None || fromService == Some("") ==> at == now
  {
    match fromService
    case Some(t) => if t != "" then t else now
    case None => now
  }

  /** A card's initial timestamp: the record's, with an empty one shown as none. */
  function InitialUpdatedAt(recorded: Option<string>): (r: Option<string>)
    ensures r == None <==> recorded == None || recorded == Some("")
    ensures r != None ==> r == recorded
  {
    if recorded == Some("") then None else recorded
  }

  /** A card's initial access count: the record's, with a zero count shown as none. */
  function InitialAccessCount(recorded: Option<int>): (r: Option<int>)
    ensures r == None <==> recorded == None || recorded == Some(0)
    ensures r != None ==> r == recorded
  {
    if recorded == Some(0) then None else recorded
  }

  /**
   * The stored list after an edit of `code`: same length and order; a record with that
   * code gets the new `url` and `updatedAt` and keeps every other field; the others are untouched.
   */
  function RewriteStored(cur: seq<LinkRecord>, code: string, url: string, at: string): (r: seq<LinkRecord>)
    ensures |r| == |cur|
    ensures forall i | 0 <= i < |cur| ::
      && r[i].shortCode == cur[i].shortCode
      && r[i].createdAt == cur[i].createdAt
      && r[i].accessCount == cur[i].accessCount
    ensures forall i | 0 <= i < |cur| && cur[i].shortCode != code :: r[i] == cur[i]
    ensures forall i | 0 <= i < |cur| && cur[i].shortCode == code :: r[i].url == url && r[i].updatedAt == Some(at)
  {
    seq(|cur|, i requires 0 <= i < |cur| =>
      if cur[i].shortCode == code then cur[i].(url := url, updatedAt := Some(at)) else cur[i])
  }

  /**
   * What local storage holds after a successful edit: a missing key is read as the empty
   * list (and the empty list is written), unparseable contents are left as they are, and a
   * stored list is rewritten.
   */
  function StoredAfterUpdate(slot: Slot, code: string, url: string, at: string): (r: Slot)
    ensures slot.Corrupt? ==> r == slot
    ensures slot.Missing? ==> r == Saved([])
    ensures slot.Saved? ==> r == Saved(RewriteStored(slot.records, code, url, at))
  {
    match Parse(slot)
    case None => slot
    case Some(cur) => Saved(RewriteStored(cur, code, url, at))
  }

  /** Of two edits of the same record, the later one decides the stored list. */
  lemma LastUpdateWins(cur: seq<LinkRecord>, code: string, url1: string, at1: string, url2: string, at2: string)
    ensures RewriteStored(RewriteStored(cur, code, url1, at1), code, url2, at2) == RewriteStored(cur, code, url2, at2)
  {
    var once := RewriteStored(cur, code, url2, at2);
    var twice := RewriteStored(RewriteStored(cur, code, url1, at1), code, url2, at2);
    forall i | 0 <= i < |cur| ensures twice[i] == once[i] {
    }
  }

  /** An edit keeps the short codes of the stored list unique. */
  lemma RewriteKeepsUniqueness(cur: seq<LinkRecord>, code: string, url: string, at: string)
    requires UniqueCodes(cur)
    ensures UniqueCodes(RewriteStored(cur, code, url, at))
  {
    UniqueCodesPairwise(cur);
    UniqueCodesPairwise(RewriteStored(cur, code, url, at));
  }

  /** Editing a code the list does not hold leaves it as it was. */
  lemma RewriteAbsentCode(cur: seq<LinkRecord>, code: string, url: string, at: string)
    requires !HasCode(cur, code)
    ensures RewriteStored(cur, code, url, at) == cur
  {
  }

  /**
   * An edit is lost at the next write-back of the in-memory history: the edit puts `url` into
   * the stored record at `i`, but after a create what is written for that code is the in-memory
   * record's URL again.
   */
  lemma WriteBackDropsEdit(h: seq<LinkRecord>, i: nat, url: string, at: string, created: LinkRecord)
    requires i < |h| && h[i].url != url && created.shortCode != h[i].shortCode && UniqueCodes(h)
    ensures StoredAfterUpdate(Saved(h), h[i].shortCode, url, at).records[i].url == url
    ensures forall x | x in Upsert(h, created) && x.shortCode == h[i].shortCode :: x.url == h[i].url && x.url != url
  {
    UniqueCodesPairwise(h);
    WithoutCodeMembers(h, created.shortCode);
    forall x | x in Upsert(h, created) && x.shortCode == h[i].shortCode
      ensures x.url == h[i].url
    {
      var j :| 0 <= j < |h| && h[j] == x;
      assert j == i;
    }
  }

  /** The per-card state: edit mode, the shown and the typed URL, the timestamp and the access count. */
  class ShortUrlCard {
    const item: LinkRecord
    var isEditing: bool
    var localUrl: string
    var tempUrl: string
    var updatedAt: Option<string>
    var accessCount: Option<int>

    constructor (item: LinkRecord)
      ensures this.item == item
      ensures !isEditing && localUrl == item.url && tempUrl == item.url
      ensures updatedAt == InitialUpdatedAt(item.updatedAt)
      ensures accessCount == InitialAccessCount(item.accessCount)
    {
      this.item := item;
      isEditing := false;
      localUrl := item.url;
      tempUrl := item.url;
      updatedAt := InitialUpdatedAt(item.updatedAt);
      accessCount := InitialAccessCount(item.accessCount);
    }

    /** The Edit button. */
    method Edit()
      modifies this`isEditing
      ensures isEditing
    {
      isEditing := true;
    }

    /** Typing in the edit input. */
    method Type(text: string)
      modifies this`tempUrl
      ensures tempUrl == text
    {
      tempUrl := text;
    }

    /** The Cancel button: leave edit mode and put the shown URL back into the input. */
    method Cancel()
      modifies this`isEditing, this`tempUrl
      ensures !isEditing && tempUrl == localUrl
    {
      isEditing := false;
      tempUrl := localUrl;
    }
  }

  /** The panel: its toast, the service base, and the root that owns the history. */
  class HistoryList {
    const base: string
    const app: App
    var toast: Option<string>

    /** `configured` is the build's `VITE_API_URL`. */
    constructor (configured: Option<string>, app: App)
      ensures base == ApiBase(configured) && this.app == app && toast == None
    {
      base := ApiBase(configured);
      this.app := app;
      toast := None;
    }

    /** Delete: on a 204 reply the record leaves the history (and the highlight); otherwise nothing changes. */
    method DelItem(code: string, reply: Reply<()>) returns (sent: Request)
      modifies this, app, app.store
      ensures sent == DeleteRequest(base, code)
      ensures DeleteAccepted(reply) ==>
        && app.history == WithoutCode(old(app.history), code)
        && app.highlighted == HighlightAfterRemove(old(app.highlighted), code)
        && app.Persisted()
        && toast == Some(DeletedMessage)
      ensures !DeleteAccepted(reply) ==> unchanged(app, app.store) && toast == Some(DeleteErrorMessage)
    {
      sent := DeleteRequest(base, code);
      if DeleteAccepted(reply) {
        app.RemoveFromHistory(code);
        toast := Some(DeletedMessage);
      } else {
        toast := Some(DeleteErrorMessage);
      }
    }

    /**
     * Save (or Enter) on a card in edit mode: the typed URL `card.tempUrl` is validated. A rejected
     * input shows the rule's message and sends nothing. An accepted one is sent as the trimmed text.
     * On an ok reply the card shows the service's URL and timestamp and leaves edit mode, and local
     * storage is rewritten; the in-memory history is never touched. Any failure shows the error and
     * changes nothing else. `now` is the clock reading.
     */
    method UpdateItem(card: ShortUrlCard, parse: string -> Option<string>,
                      reply: Reply<LinkRecord>, now: string) returns (sent: Option<Request>)
      requires card.isEditing
      modifies this, card, app.store
      ensures app.history == old(app.history) && app.highlighted == old(app.highlighted)
      ensures var checked := CardValidate(old(card.tempUrl), parse);
        checked.Failure? ==> sent == None && toast == Some(checked.error) && unchanged(card, app.store)
      ensures var checked := CardValidate(old(card.tempUrl), parse);
        checked.Success? ==> sent == Some(UpdateRequest(base, card.item.shortCode, Trim(old(card.tempUrl))))
      ensures var checked := CardValidate(old(card.tempUrl), parse);
        checked.Success? && Accepted(reply) ==>
          var at := Stamp(reply.data.updatedAt, now);
          && card.localUrl == reply.data.url && card.updatedAt == Some(at) && !card.isEditing
          && card.tempUrl == old(card.tempUrl) && card.accessCount == old(card.accessCount)
          && app.store.slot == StoredAfterUpdate(old(app.store.slot), card.item.shortCode, reply.data.url, at)
          && toast == Some(UpdatedMessage)
      ensures var checked := CardValidate(old(card.tempUrl), parse);
        checked.Success? && !Accepted(reply) ==>
          unchanged(card, app.store) && toast == Some(UpdateErrorMessage)
    {
      var checked := CardValidate(card.tempUrl, parse);
      if checked.Failure? {
        toast := Some(checked.error);
        return None;
      }
      sent := Some(UpdateRequest(base, card.item.shortCode, checked.value));
      if !Accepted(reply) {
        toast := Some(UpdateErrorMessage);
        return;
      }
      var data := reply.data;
      card.localUrl := data.url;
      card.updatedAt := Some(Stamp(data.updatedAt, now));
      card.isEditing := false;
      app.store.slot := StoredAfterUpdate(app.store.slot, card.item.shortCode, data.url, Stamp(data.updatedAt, now));
      toast := Some(UpdatedMessage);
    }

    /** Stats: on an ok reply the card shows the service's count; it is never written to storage. */
    method FetchStats(card: ShortUrlCard, reply: Reply<int>) returns (sent: Request)
      modifies this, card`accessCount
      ensures sent == StatsRequest(base, card.item.shortCode)
      ensures Accepted(reply) ==> card.accessCount == Some(reply.data) && toast == Some(StatsMessage)
      ensures !Accepted(reply) ==> card.accessCount == old(card.accessCount) && toast == Some(StatsErrorMessage)
    {
      sent := StatsRequest(base, card.item.shortCode);
      if Accepted(reply) {
        card.accessCount := Some(reply.data);
        toast := Some(StatsMessage);
      } else {
        toast := Some(StatsErrorMessage);
      }
    }
  }

  /**
   * The edit-then-create scenario: after a successful edit the stored list holds the edit, but
   * the next create writes back the in-memory history, which never saw it.
   */
  method EditLostOnNextWriteBack(panel: HistoryList, card: ShortUrlCard, newUrl: string,
                                 parse: string -> Option<string>, reply: Reply<LinkRecord>, now: string,
                                 created: LinkRecord) returns (stored: Slot)
    requires CardValidate(newUrl, parse).Success? && Accepted(reply)
    modifies panel, card, panel.app, panel.app.store
    ensures stored == StoredAfterUpdate(old(panel.app.store.slot), card.item.shortCode, reply.data.url,
                                        Stamp(reply.data.updatedAt, now))
    ensures panel.app.history == Upsert(old(panel.app.history), created)
    ensures panel.app.store.slot == Saved(Upsert(old(panel.app.history), created))
  {
    card.Edit();
    card.Type(newUrl);
    var _ := panel.UpdateItem(card, parse, reply, now);
    stored := panel.app.store.slot;
    panel.app.AddToHistory(created);
  }
}
