/** The HTTP server of app.py: a registry from service name to
    `BrowserSession`, the POST endpoints that start, close, inject into,
    scrape and send through those sessions, and the enhanced prompt that
    folds remembered context into a message.

    Sessions no longer drive a browser: `start_session` only marks the session
    active, injection prepares an enhanced prompt for the user to paste, and
    scraping produces a fixed placeholder record. Clock readings
    (`datetime.now().isoformat()`, `int(time.time())`, the database's
    `str(time.time())`) are parameters. */
module Sessions {
  import opened Wrappers
  import opened Text
  import Memory
  import opened Maps

  /** One entry of a scrape's `chat_elements`. */
  datatype ChatElement = ChatElement(role: string, text: string, html: string)

  /** The dictionary `scrape_current_data` builds and stores. */
  datatype Scraped = Scraped(
    service: string,
    url: string,
    timestamp: string,
    title: string,
    chatElements: seq<ChatElement>,
    fullText: string,
    status: string,
    instructions: string,
    embedding: Memory.Vec)

  /** A `BrowserSession`. Its `driver` and `window_handle` are always None
      and are not modelled. */
  datatype Session = Session(serviceName: string, url: string, isActive: bool, lastScraped: Option<Scraped>)

  /** The JSON record `BrowserSession.inject_message` writes for the user. */
  datatype Prepared = Prepared(
    timestamp: string,
    service: string,
    message: string,
    enhanced: string,
    status: string,
    instructions: string,
    fileName: string)

  /** The `browser_sessions` dictionary. */
  type Registry = map<string, Session>

  /** The JSON body of an endpoint's response. */
  datatype Reply =
    | Error(error: string)
    | Started(service: string, url: string)
    | Closed(message: string)
    | Injected(service: string)
    | Saved(fileName: string, title: string, chatElementsCount: nat, textLength: nat)
    | Sent(service: string, messageSent: string, responsePreview: string, scrapedFile: Option<string>)

  /** The user id under which the server remembers exchanges. */
  const WebUser := "web_user"
  /** How many remembered exchanges an enhanced prompt carries. */
  const ContextLimit := 3
  /** How much of the reply `send_message_to_ai` previews. */
  const PreviewLength := 500

  const ContextHeader := "Context from previous conversations:\n"
  const QuestionLead := "\n\nCurrent question: "

  // ---------------------------------------------------------------- one session

  /** `BrowserSession(service_name, url)`. */
  function NewSession(service: string, url: string): (s: Session)
    ensures s.serviceName == service && s.url == url
    ensures !s.isActive && s.lastScraped.None?
  {
    Session(service, url, false, None)
  }

  /** `start_session`: nothing in it can raise, so it always succeeds. */
  function StartSession(s: Session): (r: Session)
    ensures r.isActive
    ensures r.serviceName == s.serviceName && r.url == s.url && r.lastScraped == s.lastScraped
  {
    s.(isActive := true)
  }

  /** `close_session`: with no driver to quit, only the flag changes. */
  function CloseSession(s: Session): (r: Session)
    ensures !r.isActive
    ensures r.serviceName == s.serviceName && r.url == s.url && r.lastScraped == s.lastScraped
  {
    s.(isActive := false)
  }

  lemma CloseSessionIdempotent(s: Session)
    ensures CloseSession(CloseSession(s)) == CloseSession(s)
    ensures StartSession(CloseSession(s)) == StartSession(s)
  {
  }

  /** The prompt sent to the AI: the message alone when there is no context,
      otherwise the context lines under a header, then the message. */
  function Enhance(ctx: seq<string>, message: string): (r: string)
    ensures |r| >= |message| && r[|r| - |message|..] == message
    ensures ctx == [] <==> r == message
    ensures ctx != [] ==> ContextHeader <= r
    ensures ctx != [] ==>
      var j := Join(ctx, "\n");
      && |r| == |ContextHeader| + |j| + |QuestionLead| + |message|
      && r[|ContextHeader|..|ContextHeader| + |j|] == j
      && r[|ContextHeader| + |j|..|r| - |message|] == QuestionLead
  {
    if ctx == [] then message
    else
      var j := Join(ctx, "\n");
      var r := ContextHeader + j + QuestionLead + message;
      assert r[|r| - |message|..] == message;
      assert r[..|ContextHeader|] == ContextHeader;
      assert r[|ContextHeader|..|ContextHeader| + |j|] == j;
      assert r[|ContextHeader| + |j|..|r| - |message|] == QuestionLead;
      r
  }

  /** Every context line stands unchanged in the enhanced prompt, after the
      header and in the order of the context, each followed by the next one
      after one line break. */
  lemma EnhanceCarriesContext(ctx: seq<string>, message: string, i: nat)
    requires i < |ctx|
    ensures var k := |ContextHeader| + JoinOffset(ctx, "\n", i);
      var r := Enhance(ctx, message);
      && k + |ctx[i]| <= |r|
      && r[k..k + |ctx[i]|] == ctx[i]
    ensures i + 1 < |ctx| ==> JoinOffset(ctx, "\n", i + 1) == JoinOffset(ctx, "\n", i) + |ctx[i]| + 1
  {
    JoinKeepsElements(ctx, "\n", i);
    var j := Join(ctx, "\n");
    var k := JoinOffset(ctx, "\n", i);
    var r := Enhance(ctx, message);
    var rest := j + QuestionLead + message;
    assert r == ContextHeader + rest;
    SliceLeft(j, QuestionLead + message, k, k + |ctx[i]|);
    assert rest == j + (QuestionLead + message);
    SliceRight(ContextHeader, rest, k, k + |ctx[i]|);
  }

  /** `message_{service}_{timestamp}.json`, with the colons of the ISO
      timestamp turned into dashes. */
  function MessageFileName(service: string, iso: string): (f: string)
    ensures |f| == |service| + |iso| + 14
    ensures "message_" <= f
    ensures forall i :: 0 <= i < |iso| && iso[i] != ':' ==> f[9 + |service| + i] == iso[i]
    ensures ':' !in service ==> ':' !in f
  {
    var f := "message_" + service + "_" + ReplaceChar(iso, ':', '-') + ".json";
    assert forall i :: 0 <= i < |iso| ==> f[9 + |service| + i] == ReplaceChar(iso, ':', '-')[i];
    assert ':' !in service ==> forall i :: 0 <= i < |f| ==> f[i] != ':' by {
      if ':' !in service {
        forall i | 0 <= i < |f| ensures f[i] != ':' {
          if 8 <= i < 8 + |service| {
            assert f[i] == service[i - 8];
          } else if 9 + |service| <= i < 9 + |service| + |iso| {
            assert f[i] == ReplaceChar(iso, ':', '-')[i - 9 - |service|];
          }
        }
      }
    }
    f
  }

  /** `BrowserSession.inject_message`: an inactive session refuses; otherwise
      the message is enhanced with up to three remembered exchanges of the web
      user, looked up by similarity to the message, and written out. A
      failing context lookup is caught and reported as failure. */
  function PrepareMessage(o: Memory.Oracles, db: Memory.Db, s: Session, message: string, iso: string): (r: Option<Prepared>)
    ensures r.Some? <==> s.isActive && !Memory.LookupFails(o, db, WebUser, message)
    ensures r.Some? ==>
      var ctx := Memory.SimilarContext(o, db, WebUser, message, ContextLimit).value;
      && r.value.enhanced == Enhance(ctx, message)
      && (r.value.enhanced != message <==> ctx != [])
    ensures r.Some? ==>
      && r.value.message == message
      && r.value.service == s.serviceName
      && r.value.timestamp == iso
      && r.value.fileName == MessageFileName(s.serviceName, iso)
      && |r.value.enhanced| >= |message|
      && r.value.enhanced[|r.value.enhanced| - |message|..] == message
    ensures r.Some? && r.value.enhanced != message ==>
      exists x :: x in db.rows && x.userId == WebUser
  {
    if !s.isActive then None
    else
      match Memory.SimilarContext(o, db, WebUser, message, ContextLimit)
      case Failure(_) => None
      case Success(ctx) =>
        assert ctx != [] ==> ctx[0] in ctx;
        Some(Prepared(iso, s.serviceName, message, Enhance(ctx, message), "ready_for_manual_input",
                      "Please copy this enhanced message to the " + s.serviceName + " tab and send it manually",
                      MessageFileName(s.serviceName, iso)))
  }

  function PlaceholderText(service: string): string
  {
    "Manual scraping placeholder for " + service + ". User should copy actual conversation data."
  }

  function PlaceholderFullText(service: string): string
  {
    "Manual scraping session for " + service + ". Please copy actual conversation data from the browser tab."
  }

  /** `scrape_current_data`: an inactive session yields None; an active one
      yields the placeholder record, with the embedding of its full text, and
      remembers it as the last scrape. */
  function ScrapeCurrentData(o: Memory.Oracles, s: Session, iso: string): (r: (Option<Scraped>, Session))
    ensures !s.isActive ==> r.0.None? && r.1 == s
    ensures s.isActive ==>
      && r.0.Some?
      && r.1 == s.(lastScraped := r.0)
      && r.0.value.service == s.serviceName
      && r.0.value.url == s.url
      && r.0.value.timestamp == iso
      && |r.0.value.chatElements| == 1
      && r.0.value.embedding == o.encode(r.0.value.fullText)
  {
    if !s.isActive then (None, s)
    else
      var full := PlaceholderFullText(s.serviceName);
      var d := Scraped(s.serviceName, s.url, iso, s.serviceName + " - Manual Chat Session",
                       [ChatElement("system", PlaceholderText(s.serviceName), "<div>Manual scraping placeholder</div>")],
                       full, "manual_scraping_required",
                       "Please manually copy conversation data from the " + s.serviceName + " browser tab",
                       o.encode(full));
      (Some(d), s.(lastScraped := Some(d)))
  }

  // ---------------------------------------------------------------- registry

  /** What every reachable registry satisfies: each entry is an active session
      filed under its own service name. */
  predicate Coherent(reg: Registry)
  {
    forall k :: k in reg ==> reg[k].serviceName == k && reg[k].isActive
  }

  /** `start_browser_session`. Besides the reply and the new registry it
      yields the previous session for the service, closed, if there was one. */
  function StartBrowserSession(reg: Registry, service: Option<string>, url: Option<string>): (r: (Reply, Registry, Option<Session>))
    ensures !(Memory.Truthy(service) && Memory.Truthy(url)) <==> r.0 == Error("Missing service or URL")
    ensures r.0.Error? ==> r.1 == reg && r.2.None?
    ensures !r.0.Error? ==>
      var s := service.value;
      && r.0 == Started(s, url.value)
      && s in r.1
      && r.1[s].isActive && r.1[s].serviceName == s && r.1[s].url == url.value && r.1[s].lastScraped.None?
      && OthersUnchanged(reg, r.1, s)
      && (r.2.Some? <==> s in reg)
      && (r.2.Some? ==> !r.2.value.isActive && r.2.value.url == reg[s].url)
    ensures Coherent(reg) ==> Coherent(r.1)
  {
    if !(Memory.Truthy(service) && Memory.Truthy(url)) then (Error("Missing service or URL"), reg, None)
    else
      var s := service.value;
      var retired := if s in reg then Some(CloseSession(reg[s])) else None;
      var session := StartSession(NewSession(s, url.value));
      (Started(s, url.value), reg[s := session], retired)
  }

  /** `close_browser_session`. */
  function CloseBrowserSession(reg: Registry, service: Option<string>): (r: (Reply, Registry, Option<Session>))
    ensures r.0.Closed? <==> service.Some? && service.value in reg
    ensures !r.0.Closed? ==> r == (Error("Session not found"), reg, None)
    ensures r.0.Closed? ==>
      var s := service.value;
      && r.0.message == "Closed session for " + s
      && r.1 == reg - {s}
      && r.2.Some? && !r.2.value.isActive && r.2.value.url == reg[s].url
    ensures Coherent(reg) ==> Coherent(r.1)
  {
    if service.Some? && service.value in reg then
      var s := service.value;
      (Closed("Closed session for " + s), reg - {s}, Some(CloseSession(reg[s])))
    else (Error("Session not found"), reg, None)
  }

  const MissingServiceOrMessage := "Missing service or message"
  const SessionNotFound := "Browser session not found"

  /** The two checks `inject_message` and `send_message_to_ai` make, in
      order, before touching a session. */
  function Guard(reg: Registry, service: Option<string>, message: Option<string>): (r: Option<Reply>)
    ensures r == None <==> Memory.Truthy(service) && Memory.Truthy(message) && service.value in reg
    ensures !(Memory.Truthy(service) && Memory.Truthy(message)) ==> r == Some(Error(MissingServiceOrMessage))
    ensures Memory.Truthy(service) && Memory.Truthy(message) && service.value !in reg ==> r == Some(Error(SessionNotFound))
  {
    if !(Memory.Truthy(service) && Memory.Truthy(message)) then Some(Error(MissingServiceOrMessage))
    else if service.value !in reg then Some(Error(SessionNotFound))
    else None
  }

  /** `inject_message`. The registry is not changed; the prepared record is
      the file written for the user. */
  function InjectMessage(o: Memory.Oracles, db: Memory.Db, reg: Registry, service: Option<string>, message: Option<string>, iso: string): (r: (Reply, Option<Prepared>))
    ensures Guard(reg, service, message).Some? ==> r == (Guard(reg, service, message).value, None)
    ensures r.0.Injected? <==>
      Guard(reg, service, message).None? && reg[service.value].isActive
      && !Memory.LookupFails(o, db, WebUser, message.value)
    ensures r.0.Injected? ==> r.0.service == service.value && r.1.Some? && r.1.value.message == message.value
    ensures !r.0.Injected? ==> r.1.None?
    ensures Guard(reg, service, message).None? && !r.0.Injected? ==> r.0 == Error("Failed to inject message")
  {
    var g := Guard(reg, service, message);
    if g.Some? then (g.value, None)
    else
      var p := PrepareMessage(o, db, reg[service.value], message.value, iso);
      if p.Some? then (Injected(service.value), p) else (Error("Failed to inject message"), None)
  }

  /** In a coherent registry, injecting into a known session fails only when
      the context lookup raises: the memory table lacks its embedding columns,
      or a stored embedding of the web user does not convert to floats. */
  lemma InjectFailsOnlyOnLookupError(o: Memory.Oracles, db: Memory.Db, reg: Registry, service: Option<string>, message: Option<string>, iso: string)
    requires Coherent(reg)
    requires Memory.Truthy(service) && Memory.Truthy(message) && service.value in reg
    ensures InjectMessage(o, db, reg, service, message, iso).0.Injected? <==>
      !Memory.LookupFails(o, db, WebUser, message.value)
    ensures !db.embeddingColumns ==> !InjectMessage(o, db, reg, service, message, iso).0.Injected?
  {
  }

  /** `scrape_chat_data`: the scrape is saved as `{service}_{secs}.json`. */
  function ScrapeChatData(o: Memory.Oracles, reg: Registry, service: Option<string>, iso: string, secs: nat): (r: (Reply, Registry))
    ensures !Memory.Truthy(service) ==> r == (Error("Missing service"), reg)
    ensures Memory.Truthy(service) && service.value !in reg ==>
      r == (Error("Browser session not found. Please start a session first."), reg)
    ensures r.0.Saved? <==> Memory.Truthy(service) && service.value in reg && reg[service.value].isActive
    ensures r.0.Saved? ==>
      var s := service.value;
      && r.0.fileName == s + "_" + Decimal(secs) + ".json"
      && var (d, session) := ScrapeCurrentData(o, reg[s], iso);
      && d.Some?
      && r.0.title == d.value.title
      && r.0.chatElementsCount == |d.value.chatElements| == 1
      && r.0.textLength == |d.value.fullText|
      && s in r.1 && r.1[s] == session && r.1[s].lastScraped == d
      && OthersUnchanged(reg, r.1, s)
    ensures !r.0.Saved? ==> r.1 == reg
    ensures Coherent(reg) ==> Coherent(r.1)
  {
    if !Memory.Truthy(service) then (Error("Missing service"), reg)
    else if service.value !in reg then (Error("Browser session not found. Please start a session first."), reg)
    else
      var s := service.value;
      var (scraped, session) := ScrapeCurrentData(o, reg[s], iso);
      if scraped.None? then (Error("Failed to scrape data"), reg)
      else
        var d := scraped.value;
        (Saved(s + "_" + Decimal(secs) + ".json", d.title, |d.chatElements|, |d.fullText|), reg[s := session])
  }

  /** `{service}_response_{secs}.json`. */
  function ResponseFileName(service: string, secs: nat): (f: string)
    ensures |f| > |service| + 15
    ensures f[..|service|] == service
    ensures f[|service|..|service| + 10] == "_response_"
    ensures f[|f| - 5..] == ".json"
  {
    service + "_response_" + Decimal(secs) + ".json"
  }

  /** The file name carries the clock reading it was made at. */
  lemma ResponseFileNameKeepsTime(service: string, secs: nat)
    ensures var f := ResponseFileName(service, secs);
      AllDigits(f[|service| + 10..|f| - 5]) && ParseDecimal(f[|service| + 10..|f| - 5]) == secs
  {
    var f := ResponseFileName(service, secs);
    assert f[|service| + 10..|f| - 5] == Decimal(secs);
    DecimalRoundTrip(secs);
  }

  /** The text of the final chat element of a scrape, if it has any. */
  function LastReply(scraped: Option<Scraped>): (r: Option<string>)
    ensures r.Some? <==> scraped.Some? && scraped.value.chatElements != []
    ensures r.Some? ==> r.value == scraped.value.chatElements[|scraped.value.chatElements| - 1].text
  {
    if scraped.Some? && scraped.value.chatElements != [] then
      Some(scraped.value.chatElements[|scraped.value.chatElements| - 1].text)
    else None
  }

  /** `db'` is `db` with one exchange of `userId` appended. */
  predicate Appended(db: Memory.Db, db': Memory.Db, userId: string, u: string, b: string)
  {
    && |db'.rows| == |db.rows| + 1
    && db'.rows[..|db.rows|] == db.rows
    && db'.rows[|db.rows|].userId == userId
    && db'.rows[|db.rows|].userInput == Some(u)
    && db'.rows[|db.rows|].botResponse == Some(b)
  }

  /** Remembering the exchange after a send: saved under the web user only
      when the scrape has chat elements, with the last element as the reply. */
  function RecordReply(o: Memory.Oracles, db: Memory.Db, message: string, scraped: Option<Scraped>, now: string): (r: Result<Memory.Db, Memory.DbError>)
    ensures LastReply(scraped).None? ==> r == Success(db)
    ensures LastReply(scraped).Some? ==> (r.Success? <==> db.embeddingColumns)
    ensures LastReply(scraped).Some? && r.Success? ==>
      && Appended(db, r.value, WebUser, message, LastReply(scraped).value)
      && r.value.rows[|db.rows|].timestamp == now
  {
    match LastReply(scraped)
    case None => Success(db)
    case Some(reply) => Memory.Save(o, db, WebUser, message, reply, now)
  }

  /** What `send_message_to_ai` does once the message is injected: scrape,
      remember the exchange, and answer with a preview of the reply. */
  function Deliver(o: Memory.Oracles, db: Memory.Db, reg: Registry, s: string, m: string,
                   isoScrape: string, secs: nat, now: string): (r: (Reply, Registry, Memory.Db))
    requires s in reg && reg[s].isActive && db.embeddingColumns
    ensures r.0.Sent?
    ensures r.0.service == s && r.0.messageSent == m
    ensures r.0.scrapedFile == Some(ResponseFileName(s, secs))
    ensures s in r.1 && r.1[s].lastScraped.Some? && OthersUnchanged(reg, r.1, s)
    ensures r.1[s] == reg[s].(lastScraped := r.1[s].lastScraped)
    ensures Coherent(reg) ==> Coherent(r.1)
    ensures r.1[s] == ScrapeCurrentData(o, reg[s], isoScrape).1
    ensures LastReply(r.1[s].lastScraped).Some?
    ensures var b := LastReply(r.1[s].lastScraped).value;
      && Appended(db, r.2, WebUser, m, b)
      && r.0.responsePreview == Prefix(b, PreviewLength)
    ensures |r.0.responsePreview| <= PreviewLength
  {
    var (scraped, session) := ScrapeCurrentData(o, reg[s], isoScrape);
    var latest := LastReply(scraped).value;
    var db' := RecordReply(o, db, m, scraped, now).value;
    assert Appended(db, db', WebUser, m, latest);
    (Sent(s, m, Prefix(latest, PreviewLength), Some(ResponseFileName(s, secs))), reg[s := session], db')
  }

  /** `send_message_to_ai`: the two guards, then inject and deliver. `isoInject`
      and `isoScrape` are the two ISO clock readings, `secs` the whole seconds
      naming the response file and `now` the database timestamp. The save of
      the exchange cannot raise: a successful injection has already read the
      embedding columns it writes. */
  function SendMessageToAI(o: Memory.Oracles, db: Memory.Db, reg: Registry, service: Option<string>, message: Option<string>,
                           isoInject: string, isoScrape: string, secs: nat, now: string): (r: (Reply, Registry, Memory.Db))
    ensures Guard(reg, service, message).Some? ==> r == (Guard(reg, service, message).value, reg, db)
    ensures r.0.Sent? <==>
      Guard(reg, service, message).None? && reg[service.value].isActive
      && !Memory.LookupFails(o, db, WebUser, message.value)
    ensures Guard(reg, service, message).None? && !r.0.Sent? ==> r == (Error("Failed to send message"), reg, db)
    ensures r.0.Sent? ==>
      var s := service.value;
      && r.0.service == s && r.0.messageSent == message.value
      && r.0.scrapedFile == Some(ResponseFileName(s, secs))
      && s in r.1 && r.1[s].lastScraped.Some? && OthersUnchanged(reg, r.1, s)
      && LastReply(r.1[s].lastScraped).Some?
      && var b := LastReply(r.1[s].lastScraped).value;
      && Appended(db, r.2, WebUser, message.value, b)
      && r.0.responsePreview == Prefix(b, PreviewLength)
      && |r.0.responsePreview| <= PreviewLength
    ensures Coherent(reg) ==> Coherent(r.1)
  {
    var g := Guard(reg, service, message);
    if g.Some? then (g.value, reg, db)
    else if PrepareMessage(o, db, reg[service.value], message.value, isoInject).None? then
      (Error("Failed to send message"), reg, db)
    else
      Deliver(o, db, reg, service.value, message.value, isoScrape, secs, now)
  }
}
