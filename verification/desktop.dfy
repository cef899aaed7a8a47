/** `AIBrowserApp` of desktop_app.py: the registry of AI services with their
    `enabled` and `connected` flags, the browser windows opened for them, the
    simulated send and scrape that write JSON records, and the lazily loaded
    embedding model.

    `M` is the type of the sentence-transformer model; `encode(model, text)`
    stands for `model.encode(text).tolist()`. Clock readings
    (`datetime.now().isoformat()`) are parameters. */
module Desktop {
  import opened Wrappers
  import opened Text
  import LazyModel
  import opened Maps

  /** One entry of `ai_services`. */
  datatype Service = Service(name: string, url: string, enabled: bool, connected: bool)

  /** The arguments of the `webview.create_window` call for a service. */
  datatype Window = Window(title: string, url: string, width: nat, height: nat)

  datatype Desktop<M> = Desktop(
    services: map<string, Service>,
    windows: map<string, Window>,
    model: LazyModel.Slot<M>)

  /** The JSON record `send_message_to_ai` writes. */
  datatype Interaction = Interaction(timestamp: string, service: string, message: string, response: string, fileName: string)

  /** The JSON record `scrape_ai_data` writes and returns. */
  datatype ScrapeRecord = ScrapeRecord(timestamp: string, service: string, content: string, embedding: seq<real>, fileName: string)

  const ServiceIds: set<string> := {"chatgpt", "claude", "mistral", "gemini"}

  /** What every reachable state satisfies: the four services stay
      registered, and a connected service has its browser window open on the
      service's page. */
  predicate Valid<M>(d: Desktop<M>)
  {
    && d.services.Keys == ServiceIds
    && forall id :: id in d.services && d.services[id].connected ==>
         id in d.windows && d.windows[id].url == d.services[id].url
  }

  /** The state `AIBrowserApp()` starts in. */
  function Init<M>(): (d: Desktop<M>)
    ensures d.services.Keys == ServiceIds
    ensures forall id :: id in d.services ==> (d.services[id].enabled <==> id == "chatgpt")
    ensures forall id :: id in d.services ==> !d.services[id].connected
    ensures d.windows == map[] && d.model == LazyModel.Unloaded
  {
    Desktop(map[
      "chatgpt" := Service("ChatGPT", "https://chatgpt.com/", true, false),
      "claude" := Service("Claude", "https://claude.ai/new", false, false),
      "mistral" := Service("Mistral", "https://chat.mistral.ai/chat", false, false),
      "gemini" := Service("Gemini", "https://gemini.google.com/app", false, false)
    ], map[], LazyModel.Unloaded)
  }

  /** `toggle_ai_service`: flips `enabled` of a known service and returns the
      new value; an unknown id yields False and changes nothing. */
  function Toggle<M>(d: Desktop<M>, id: string): (r: (bool, Desktop<M>))
    ensures id !in d.services ==> r == (false, d)
    ensures id in d.services ==>
      && r.0 == !d.services[id].enabled
      && r.1.services.Keys == d.services.Keys
      && r.1.services[id] == d.services[id].(enabled := r.0)
      && OthersUnchanged(d.services, r.1.services, id)
      && r.1.windows == d.windows && r.1.model == d.model
  {
    if id in d.services then
      var s := d.services[id];
      var flipped := s.(enabled := !s.enabled);
      (flipped.enabled, d.(services := d.services[id := flipped]))
    else (false, d)
  }

  /** Toggling twice restores the state. */
  lemma ToggleTwice<M>(d: Desktop<M>, id: string)
    ensures Toggle(Toggle(d, id).1, id).1 == d
  {
    if id in d.services {
      assert Toggle(Toggle(d, id).1, id).1.services == d.services;
    }
  }

  /** `start_ai_browser`: opens an 800 x 600 window on the service's page,
      files it under the id and marks the service connected. */
  function StartAiBrowser<M>(d: Desktop<M>, id: string): (r: (bool, Desktop<M>))
    ensures r.0 <==> id in d.services
    ensures !r.0 ==> r.1 == d
    ensures r.0 ==>
      var s := d.services[id];
      && r.1.services.Keys == d.services.Keys
      && r.1.services[id] == s.(connected := true)
      && r.1.services[id].enabled == s.enabled
      && OthersUnchanged(d.services, r.1.services, id)
      && id in r.1.windows
      && r.1.windows[id] == Window(s.name + " - AI Browser", s.url, 800, 600)
      && OthersUnchanged(d.windows, r.1.windows, id)
      && r.1.model == d.model
  {
    if id !in d.services then (false, d)
    else
      var s := d.services[id];
      var w := Window(s.name + " - AI Browser", s.url, 800, 600);
      (true, d.(services := d.services[id := s.(connected := true)], windows := d.windows[id := w]))
  }

  /** A broadcast reaches exactly the services that are enabled and whose
      window was opened: opening a window is what makes an enabled service
      receive it, and every service it reaches has its window. */
  lemma StartThenBroadcast<M>(d: Desktop<M>, id: string, message: string, iso: string)
    requires Valid(d)
    ensures id in d.services && d.services[id].enabled ==>
      id in SendMessageToAllActive(StartAiBrowser(d, id).1, message, iso)
    ensures forall k :: k in SendMessageToAllActive(d, message, iso) ==> k in d.windows
  {
  }

  /** After a toggle, a direct send goes through exactly when the toggle
      reported the service enabled. */
  lemma ToggleThenSend<M>(d: Desktop<M>, id: string, message: string, iso: string)
    ensures SendMessageToAi(Toggle(d, id).1, id, message, iso).Some? <==> Toggle(d, id).0
  {
  }

  /** `{id}_{timestamp}.json` with the colons of the timestamp turned into
      dashes. */
  function InteractionFileName(id: string, iso: string): (f: string)
    ensures |f| == |id| + |iso| + 6
    ensures f[..|id|] == id && f[|id| + 1..|id| + 1 + |iso|] == ReplaceChar(iso, ':', '-')
    ensures ':' !in id ==> ':' !in f
  {
    var f := id + "_" + ReplaceChar(iso, ':', '-') + ".json";
    assert f[..|id|] == id;
    assert f[|id| + 1..|id| + 1 + |iso|] == ReplaceChar(iso, ':', '-');
    f
  }

  /** `scraped_{id}_{timestamp}.json`, colons likewise replaced. */
  function ScrapeFileName(id: string, iso: string): (f: string)
    ensures |f| == |id| + |iso| + 14
    ensures f[8..8 + |id|] == id && f[9 + |id|..9 + |id| + |iso|] == ReplaceChar(iso, ':', '-')
    ensures ':' !in id ==> ':' !in f
  {
    var f := "scraped_" + id + "_" + ReplaceChar(iso, ':', '-') + ".json";
    assert f[8..8 + |id|] == id;
    assert f[9 + |id|..9 + |id| + |iso|] == ReplaceChar(iso, ':', '-');
    f
  }

  /** A file name keeps every character of the timestamp except its colons,
      so two timestamps that differ anywhere but in a colon position name
      different files. */
  lemma FileNamesKeepTimestamps(id: string, iso1: string, iso2: string)
    requires |iso1| == |iso2|
    requires exists i :: 0 <= i < |iso1| && iso1[i] != iso2[i] && iso1[i] != ':' && iso2[i] != ':'
    ensures InteractionFileName(id, iso1) != InteractionFileName(id, iso2)
    ensures ScrapeFileName(id, iso1) != ScrapeFileName(id, iso2)
  {
    var i :| 0 <= i < |iso1| && iso1[i] != iso2[i] && iso1[i] != ':' && iso2[i] != ':';
    var f1, f2 := InteractionFileName(id, iso1), InteractionFileName(id, iso2);
    assert f1[|id| + 1 + i] == ReplaceChar(iso1, ':', '-')[i];
    assert f2[|id| + 1 + i] == ReplaceChar(iso2, ':', '-')[i];
    var g1, g2 := ScrapeFileName(id, iso1), ScrapeFileName(id, iso2);
    assert g1[9 + |id| + i] == ReplaceChar(iso1, ':', '-')[i];
    assert g2[9 + |id| + i] == ReplaceChar(iso2, ':', '-')[i];
  }

  /** `send_message_to_ai`: for a known, enabled service, the record with a
      simulated response that is written to disk; None stands for False. */
  function SendMessageToAi<M>(d: Desktop<M>, id: string, message: string, iso: string): (r: Option<Interaction>)
    ensures r.Some? <==> id in d.services && d.services[id].enabled
    ensures r.Some? ==>
      && r.value.service == id && r.value.message == message && r.value.timestamp == iso
      && r.value.response == "Simulated response from " + d.services[id].name
      && r.value.fileName == InteractionFileName(id, iso)
  {
    if id !in d.services || !d.services[id].enabled then None
    else Some(Interaction(iso, id, message, "Simulated response from " + d.services[id].name, InteractionFileName(id, iso)))
  }

  /** `send_message_to_all_active`: the send result of every service that is
      both enabled and connected. */
  function SendMessageToAllActive<M>(d: Desktop<M>, message: string, iso: string): (r: map<string, bool>)
    ensures forall id :: id in r <==> id in d.services && d.services[id].enabled && d.services[id].connected
    ensures forall id :: id in r ==> r[id]
  {
    map id | id in d.services && d.services[id].enabled && d.services[id].connected
      :: SendMessageToAi(d, id, message, iso).Some?
  }

  /** `get_embedding_model` on the desktop app's own slot. */
  function EmbeddingModel<M>(d: Desktop<M>, made: M): (r: (M, Desktop<M>))
    ensures r.1 == d.(model := LazyModel.Loaded(r.0))
    ensures d.model.Loaded? ==> r.0 == d.model.model
  {
    var (m, slot, _) := LazyModel.Get(d.model, made);
    (m, d.(model := slot))
  }

  /** `scrape_ai_data`; None stands for the `KeyError` an unknown id raises
      before the model is touched. `made` is the model a construction would
      produce now. */
  function ScrapeAiData<M>(d: Desktop<M>, id: string, iso: string, made: M, encode: (M, string) -> seq<real>): (r: (Option<ScrapeRecord>, Desktop<M>))
    ensures id !in d.services ==> r == (None, d)
    ensures id in d.services ==>
      && r.0.Some?
      && r.1.services == d.services && r.1.windows == d.windows
      && r.1.model.Loaded?
      && (d.model.Loaded? ==> r.1.model == d.model)
      && r.0.value.content == "Scraped content from " + d.services[id].name
      && r.0.value.embedding == encode(r.1.model.model, r.0.value.content)
      && r.0.value.fileName == ScrapeFileName(id, iso)
  {
    if id !in d.services then (None, d)
    else
      var content := "Scraped content from " + d.services[id].name;
      var (m, d') := EmbeddingModel(d, made);
      (Some(ScrapeRecord(iso, id, content, encode(m, content), ScrapeFileName(id, iso))), d')
  }

  /** Every operation that changes the state keeps it valid. */
  lemma OperationsKeepValid<M>(d: Desktop<M>, id: string, iso: string, made: M, encode: (M, string) -> seq<real>)
    requires Valid(d)
    ensures Valid(Init<M>())
    ensures Valid(Toggle(d, id).1)
    ensures Valid(StartAiBrowser(d, id).1)
    ensures Valid(ScrapeAiData(d, id, iso, made, encode).1)
    ensures Valid(EmbeddingModel(d, made).1)
  {
  }

  /** However many scrapes run, the first one that needs the model builds it
      and all of them embed with that same instance. */
  lemma ScrapesShareOneModel<M>(d: Desktop<M>, id: string, iso1: string, iso2: string, made1: M, made2: M, encode: (M, string) -> seq<real>)
    requires id in d.services
    ensures var (r1, d1) := ScrapeAiData(d, id, iso1, made1, encode);
      var (r2, d2) := ScrapeAiData(d1, id, iso2, made2, encode);
      && d2 == d1
      && r2.value.embedding == r1.value.embedding
      && (d.model.Unloaded? ==> r1.value.embedding == encode(made1, r1.value.content))
  {
  }
}
