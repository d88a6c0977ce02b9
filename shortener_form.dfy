/** The create form (src/components/ShortenerForm.jsx): input, validation, create call, highlighted link. */
module Shortener {
  import opened Wrappers
  import opened Records
  import opened Validation
  import opened Remote
  import opened History

  const EnterUrlMessage := "Please enter a URL"
  const InvalidUrlMessage := "Please enter a valid URL"
  const SchemeMessage := "Please enter a valid URL (must start with http:// or https://)"
  const NetworkErrorMessage := "Network error"

  /** The form's message for each rejection. */
  function FormMessage(why: Rejection): string
  {
    match why
    case Empty => EnterUrlMessage
    case Malformed => InvalidUrlMessage
    case UnsupportedScheme => SchemeMessage
  }

  /**
   * The form's own copy of the validation ladder, with its early returns:
   * it is the shared ladder with the form's messages.
   */
  function FormValidate(raw: string, parse: string -> Option<string>): (r: Result<string, string>)
    ensures r == Explain(CheckUrl(raw, parse), FormMessage)
  {
    var value := Trim(raw);
    if value == [] then Failure(EnterUrlMessage)
    else if HasWhitespace(value) then Failure(InvalidUrlMessage)
    else match parse(value)
      case None => Failure(InvalidUrlMessage)
      case Some(protocol) =>
        if protocol != "http:" && protocol != "https:" then Failure(SchemeMessage) else Success(value)
  }

  /** The shown error for a thrown error: its message, or the generic text when the message is empty. */
  function ErrorText(message: string): (text: string)
    ensures text != ""
    ensures message != "" ==> text == message
    ensures message == "" ==> text == NetworkErrorMessage
  {
    if message != "" then message else NetworkErrorMessage
  }

  /** The highlighted box's link: the record's short link, or empty when nothing is highlighted. */
  function RedirectUrl(base: string, highlighted: Option<LinkRecord>): (link: string)
    ensures link == "" <==> highlighted == None
    ensures highlighted.Some? ==> link == ShortLink(base, highlighted.value.shortCode)
  {
    match highlighted
    case Some(record) => ShortLink(base, record.shortCode)
    case None => ""
  }

  /** The form's state cells; `app` is the root that receives created records and owns the highlight. */
  class ShortenerForm {
    var url: string
    var loading: bool
    var error: Option<string>
    const base: string
    const app: App

    /** `configured` is the build's `VITE_API_URL`. */
    constructor (configured: Option<string>, app: App)
      ensures base == ApiBase(configured) && this.app == app
      ensures url == "" && !loading && error == None
    {
      base := ApiBase(configured);
      this.app := app;
      url := "";
      loading := false;
      error := None;
    }

    /** Typing in the input. */
    method Type(text: string)
      modifies this`url
      ensures url == text
    {
      url := text;
    }

    /** The Clear button. */
    method Clear()
      modifies this`url
      ensures url == ""
    {
      url := "";
    }

    /**
     * Submitting the form. A rejected input sets the rule's message and sends nothing.
     * An accepted one is posted as the trimmed text; the reply to that request is `reply`.
     * On success the record goes to the history and the input is cleared; on failure the
     * error is shown and the history is untouched. `loading` is false once a request was made.
     */
    method HandleSubmit(parse: string -> Option<string>, reply: Reply<LinkRecord>) returns (sent: Option<Request>)
      modifies this, app, app.store
      ensures var checked := FormValidate(old(url), parse);
        checked.Failure? ==>
          && sent == None && error == Some(checked.error)
          && url == old(url) && loading == old(loading)
          && unchanged(app, app.store)
      ensures var checked := FormValidate(old(url), parse);
        checked.Success? ==> sent == Some(CreateRequest(base, Trim(old(url)))) && !loading
      ensures var checked, created := FormValidate(old(url), parse), Shorten(reply);
        checked.Success? && created.Success? ==>
          && error == None && url == ""
          && app.history == Upsert(old(app.history), created.value)
          && app.highlighted == Some(created.value)
          && app.Persisted()
      ensures var checked, created := FormValidate(old(url), parse), Shorten(reply);
        checked.Success? && created.Failure? ==>
          && error == Some(ErrorText(created.error)) && url == old(url)
          && unchanged(app, app.store)
    {
      error := None;
      var checked := FormValidate(url, parse);
      if checked.Failure? {
        error := Some(checked.error);
        return None;
      }
      loading := true;
      sent := Some(CreateRequest(base, checked.value));
      var created := Shorten(reply);
      if created.Success? {
        app.AddToHistory(created.value);
        url := "";
      } else {
        error := Some(ErrorText(created.error));
      }
      loading := false;
    }
  }
}
