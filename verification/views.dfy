/** The Electron main process of electron-main.js: one embedded browser view
    per AI service, laid out in quadrants under a 200-pixel control panel, the
    IPC operations that create, destroy, type into and scrape those views, and
    shutdown.

    What a page does when a script runs in it (which input element a selector
    finds, what the conversation holds, whether loading succeeds) is not
    modelled; it enters every operation as a parameter. */
module Views {
  import opened Wrappers
  import Text

  /** An entry of `aiServices`. */
  datatype AiService = AiService(name: string, url: string, title: string)

  const Services: seq<AiService> := [
    AiService("chatgpt", "https://chatgpt.com/", "ChatGPT"),
    AiService("claude", "https://claude.ai/new", "Claude"),
    AiService("mistral", "https://chat.mistral.ai/chat", "Mistral"),
    AiService("gemini", "https://gemini.google.com/", "Gemini")
  ]

  /** Pixel rectangle `{x, y, width, height}`; it covers the columns
      `x .. x + width - 1` and the rows `y .. y + height - 1`. */
  datatype Rect = Rect(x: int, y: int, width: int, height: int)

  /** A `BrowserView` showing `url` at `bounds`. */
  datatype View = View(service: string, url: string, bounds: Rect)

  /** The controller's state: the `aiViews` map and whether the Python backend
      process handle is set. */
  datatype App = App(views: map<string, View>, pythonRunning: bool)

  /** The response object of an IPC handler. */
  datatype Reply =
    | Done(message: string)
    | Created(message: string, url: string)
    | Delivered(message: string, selector: string)
    | Scraped(page: PageScrape)
    | Failed(message: string)

  /** What the scraping script hands back from a page. */
  datatype PageScrape = PageScrape(chatElements: seq<string>, url: string, title: string, timestamp: string)

  /** How the typing script ends in a page: the promise rejects with a
      message, the first matching input selector, or no input found. */
  datatype PageOutcome = Threw(error: string) | Found(selector: string) | NotFound

  const PanelHeight := 200

  // ---------------------------------------------------------------- services

  /** `aiServices.find(s => s.name === name)`. */
  function Find(name: string): (r: Option<AiService>)
    ensures r.Some? <==> exists i :: 0 <= i < |Services| && Services[i].name == name
    ensures r.Some? ==> r.value in Services && r.value.name == name
  {
    FindIn(Services, name)
  }

  function FindIn(services: seq<AiService>, name: string): (r: Option<AiService>)
    ensures r.Some? <==> exists i :: 0 <= i < |services| && services[i].name == name
    ensures r.Some? ==> r.value in services && r.value.name == name
  {
    if services == [] then None
    else if services[0].name == name then Some(services[0])
    else
      var r := FindIn(services[1..], name);
      assert forall i :: 1 <= i < |services| ==> services[i] == services[1..][i - 1];
      r
  }

  predicate IsService(name: string)
  {
    name == "chatgpt" || name == "claude" || name == "mistral" || name == "gemini"
  }

  lemma FindKnowsExactlyTheFour(name: string)
    ensures Find(name).Some? <==> IsService(name)
  {
    if IsService(name) {
      assert Services[0].name == "chatgpt" && Services[1].name == "claude";
      assert Services[2].name == "mistral" && Services[3].name == "gemini";
    }
  }

  // ---------------------------------------------------------------- layout

  /** `calculateViewBounds`: the space under the control panel is split in
      two columns and two rows (sizes rounded down by `Math.floor`);
      chatgpt, claude, mistral and gemini take the top-left, top-right,
      bottom-left and bottom-right quadrant. */
  function ViewBounds(name: string, width: nat, height: nat): (r: Rect)
    requires IsService(name)
    ensures 2 * r.width <= width < 2 * r.width + 2
    ensures 2 * r.height <= height - PanelHeight < 2 * r.height + 2
    ensures r.x == (if name == "claude" || name == "gemini" then r.width else 0)
    ensures r.y == PanelHeight + (if name == "mistral" || name == "gemini" then r.height else 0)
  {
    var w := width / 2;
    var h := (height - PanelHeight) / 2;
    match name
    case "chatgpt" => Rect(0, PanelHeight, w, h)
    case "claude" => Rect(w, PanelHeight, w, h)
    case "mistral" => Rect(0, PanelHeight + h, w, h)
    case _ => Rect(w, PanelHeight + h, w, h)
  }

  /** No pixel lies in both rectangles. */
  predicate Disjoint(a: Rect, b: Rect)
  {
    a.x + a.width <= b.x || b.x + b.width <= a.x || a.y + a.height <= b.y || b.y + b.height <= a.y
  }

  /** `r` is a proper rectangle lying within a `width` x `height` window. */
  predicate Inside(r: Rect, width: int, height: int)
  {
    0 <= r.x && 0 <= r.y && 0 <= r.width && 0 <= r.height
    && r.x + r.width <= width && r.y + r.height <= height
  }

  /** Two different services never overlap, whatever the window size. */
  lemma QuadrantsDisjoint(a: string, b: string, width: nat, height: nat)
    requires IsService(a) && IsService(b) && a != b
    ensures Disjoint(ViewBounds(a, width, height), ViewBounds(b, width, height))
  {
  }

  /** Once the window is at least as tall as the control panel, every view
      lies below the panel and inside the window, and together the four leave
      at most one column and one row of it uncovered. */
  lemma QuadrantsInside(name: string, width: nat, height: nat)
    requires IsService(name) && height >= PanelHeight
    ensures Inside(ViewBounds(name, width, height), width, height)
    ensures ViewBounds(name, width, height).y >= PanelHeight
    ensures width - 2 * ViewBounds(name, width, height).width <= 1
    ensures height - PanelHeight - 2 * ViewBounds(name, width, height).height <= 1
  {
  }

  // ---------------------------------------------------------------- registry

  /** Every registered view belongs to a known service, is filed under that
      service's name and shows its url. */
  predicate Coherent(views: map<string, View>)
  {
    forall k :: k in views ==> IsService(k) && views[k].service == k && Find(k).Some? && views[k].url == Find(k).value.url
  }

  /** `createAIView` in a `width` x `height` window; `load` is the message of
      the error thrown after the view is built (for example the rejection of
      `loadURL`), or None when the page loads. */
  function CreateAIView(app: App, name: string, width: nat, height: nat, load: Option<string>): (r: (Reply, App))
    ensures Find(name).None? ==> r == (Failed("Unknown service: " + name), app)
    ensures Find(name).Some? && name in app.views ==> r == (Done("View already exists"), app)
    ensures Find(name).Some? && name !in app.views && load.Some? ==> r == (Failed(load.value), app)
    ensures Find(name).Some? && name !in app.views && load.None? ==>
      && r.0 == Created(Find(name).value.title + " view created successfully", Find(name).value.url)
      && r.1.pythonRunning == app.pythonRunning
      && r.1.views.Keys == app.views.Keys + {name}
      && (forall k :: k in app.views ==> r.1.views[k] == app.views[k])
      && r.1.views[name].url == Find(name).value.url
      && r.1.views[name].bounds == ViewBounds(name, width, height)
    ensures Coherent(app.views) ==> Coherent(r.1.views)
  {
    match Find(name)
    case None => (Failed("Unknown service: " + name), app)
    case Some(service) =>
      if name in app.views then (Done("View already exists"), app)
      else if load.Some? then (Failed(load.value), app)
      else
        FindKnowsExactlyTheFour(name);
        var view := View(name, service.url, ViewBounds(name, width, height));
        (Created(service.title + " view created successfully", service.url),
         app.(views := app.views[name := view]))
  }

  /** Once a view exists, asking for it again reports that it exists and
      changes nothing; a view whose page failed to load was never registered,
      so a later request creates it afresh. */
  lemma CreateIdempotent(app: App, name: string, width: nat, height: nat, load: Option<string>, again: Option<string>)
    ensures var once := CreateAIView(app, name, width, height, load).1;
      name in once.views <==> name in app.views || (Find(name).Some? && load.None?)
    ensures var once := CreateAIView(app, name, width, height, load).1;
      Find(name).Some? && name in once.views ==> CreateAIView(once, name, width, height, again) == (Done("View already exists"), once)
  {
  }

  /** `destroyAIView`; `fail` is the message of the error that
      `removeBrowserView` or `webContents.destroy()` throws, or None when
      both succeed. A throw comes before the view is deleted from the map. */
  function DestroyAIView(app: App, name: string, fail: Option<string>): (r: (Reply, App))
    ensures r.0.Done? <==> name in app.views && fail.None?
    ensures r.0.Done? ==> r == (Done(name + " view destroyed"), app.(views := app.views - {name}))
    ensures name in app.views && fail.Some? ==> r == (Failed(fail.value), app)
    ensures name !in app.views ==> r == (Failed("No view found for " + name), app)
    ensures Coherent(app.views) ==> Coherent(r.1.views)
  {
    if name !in app.views then (Failed("No view found for " + name), app)
    else if fail.Some? then (Failed(fail.value), app)
    else (Done(name + " view destroyed"), app.(views := app.views - {name}))
  }

  /** Creating a view and destroying it again restores the registry. */
  lemma CreateThenDestroy(app: App, name: string, width: nat, height: nat)
    requires Find(name).Some? && name !in app.views
    ensures DestroyAIView(CreateAIView(app, name, width, height, None).1, name, None).1 == app
  {
    assert (app.views[name := View(name, Find(name).value.url, ViewBounds(name, width, height))]) - {name} == app.views;
  }

  /** `sendMessageToAI`. The result is the reply and the string literal body
      the script writes into the input element. */
  function SendMessageToAI(app: App, name: string, message: string, page: PageOutcome): (r: (Reply, string))
    ensures name !in app.views ==> r.0 == Failed("No view found for " + name)
    ensures name in app.views ==> match page
      case Threw(e) => r.0 == Failed(e)
      case Found(sel) => r.0 == Delivered("Message sent to " + name, sel)
      case NotFound => r.0 == Failed("Failed to find input element for " + name)
    ensures DecodeLiteral(r.1) == Value(message)
  {
    EscapeLiteralRoundTrip(message);
    var body := EscapeLiteral(message);
    if name !in app.views then (Failed("No view found for " + name), body)
    else
      match page
      case Threw(e) => (Failed(e), body)
      case Found(sel) => (Delivered("Message sent to " + name, sel), body)
      case NotFound => (Failed("Failed to find input element for " + name), body)
  }

  /** `scrapeAIData`; `page` is what the scraping script resolved to, or the
      rejection message. */
  function ScrapeAIData(app: App, name: string, page: Result<PageScrape, string>): (r: Reply)
    ensures name !in app.views ==> r == Failed("No view found for " + name)
    ensures r.Scraped? <==> name in app.views && page.Success?
    ensures r.Scraped? ==> r.page == page.value
  {
    if name !in app.views then Failed("No view found for " + name)
    else
      match page
      case Failure(e) => Failed(e)
      case Success(p) => Scraped(p)
  }

  /** Only `createAIView` adds views: no other operation grows the registry. */
  lemma OnlyCreateAdds(app: App, name: string, fail: Option<string>, message: string, page: PageOutcome, scrape: Result<PageScrape, string>)
    ensures DestroyAIView(app, name, fail).1.views.Keys <= app.views.Keys
    ensures SendMessageToAI(app, name, message, page).0.Delivered? ==> name in app.views
    ensures ScrapeAIData(app, name, scrape).Scraped? ==> name in app.views
  {
  }

  /** `cleanup`: the backend is stopped and every view is dropped. */
  function Cleanup(app: App): (r: App)
    ensures r.views == map[] && !r.pythonRunning
  {
    App(map[], false)
  }

  lemma CleanupFinal(app: App, name: string, fail: Option<string>, message: string, page: PageOutcome)
    ensures Cleanup(Cleanup(app)) == Cleanup(app)
    ensures DestroyAIView(Cleanup(app), name, fail) == (Failed("No view found for " + name), Cleanup(app))
    ensures SendMessageToAI(Cleanup(app), name, message, page).0 == Failed("No view found for " + name)
  {
  }

  // ---------------------------------------------------------------- escaping

  /** The message as the typing script writes it between single quotes:
      `message.replace(/'/g, "\\'")`. Backslashes and line breaks are left
      as they are. */
  function EscapeQuotes(m: string): (r: string)
    ensures |r| == |m| + Text.Count(m, '\'')
    ensures r == [] || r[0] != '\''
  {
    if m == [] then []
    else (if m[0] == '\'' then "\\'" else [m[0]]) + EscapeQuotes(m[1..])
  }

  /** Every quote in the escaped text follows a backslash. */
  lemma {:induction false} EscapedQuotesArePreceded(m: string)
    ensures forall i :: 0 <= i < |EscapeQuotes(m)| && EscapeQuotes(m)[i] == '\'' ==>
      i > 0 && EscapeQuotes(m)[i - 1] == '\\'
  {
    if m != [] {
      EscapedQuotesArePreceded(m[1..]);
      var r := EscapeQuotes(m);
      var h := if m[0] == '\'' then "\\'" else [m[0]];
      var t := EscapeQuotes(m[1..]);
      assert r == h + t;
      forall i | 0 <= i < |r| && r[i] == '\''
        ensures i > 0 && r[i - 1] == '\\'
      {
        if i < |h| {
          assert r[0] == h[0] && r[i] == h[i];
        } else {
          assert r[i] == t[i - |h|];
          assert r[i - 1] == t[i - |h| - 1];
        }
      }
    }
  }

  /** Drops the backslash in front of each escaped quote, reading left to
      right. */
  function UnescapeQuotes(s: string): string
  {
    if s == [] then []
    else if |s| >= 2 && s[0] == '\\' && s[1] == '\'' then "'" + UnescapeQuotes(s[2..])
    else [s[0]] + UnescapeQuotes(s[1..])
  }

  lemma {:induction false} UnescapeEscapeQuotes(m: string)
    ensures UnescapeQuotes(EscapeQuotes(m)) == m
  {
    if m != [] {
      var t := EscapeQuotes(m[1..]);
      UnescapeEscapeQuotes(m[1..]);
      if m[0] == '\'' {
        assert EscapeQuotes(m) == "\\'" + t;
        assert (("\\'" + t)[2..]) == t;
      } else {
        assert EscapeQuotes(m) == [m[0]] + t;
        assert ([m[0]] + t)[1..] == t;
      }
      assert m == [m[0]] + m[1..];
    }
  }

  /** What a single-quoted JavaScript string literal stands for, following the
      string literal grammar of ECMA-262 (section 12.9.4, String Literals). */
  datatype Literal =
    | Value(text: string)
    /** The body is not one literal: a bare quote ends it early or a bare line
        break or a final backslash leaves it unterminated. */
    | Broken
    /** Numeric, hexadecimal, unicode and line-continuation escapes, which
        this model does not decode. */
    | Unmodelled

  function Prepend(c: char, l: Literal): Literal
  {
    match l
    case Value(s) => Value([c] + s)
    case _ => l
  }

  /** The character a one-character escape `\c` stands for. */
  function EscapeValue(c: char): char
  {
    match c
    case 'n' => '\n'
    case 'r' => '\r'
    case 't' => '\t'
    case 'b' => 8 as char
    case 'f' => 12 as char
    case 'v' => 11 as char
    case _ => c
  }

  /** The literal `'` + `b` + `'`. */
  function DecodeLiteral(b: string): Literal
    decreases |b|
  {
    if b == [] then Value([])
    else if b[0] == '\'' || b[0] == '\n' || b[0] == '\r' then Broken
    else if b[0] != '\\' then Prepend(b[0], DecodeLiteral(b[1..]))
    else if |b| == 1 then Broken
    else if b[1] in "0123456789xu\n\r\U{2028}\U{2029}" then Unmodelled
    else Prepend(EscapeValue(b[1]), DecodeLiteral(b[2..]))
  }

  /** The escaping the typing script needs: backslashes, quotes and line
      breaks all escaped. */
  function EscapeLiteral(m: string): (r: string)
    ensures |r| >= |m|
  {
    if m == [] then []
    else EscapeChar(m[0]) + EscapeLiteral(m[1..])
  }

  function EscapeChar(c: char): (r: string)
    ensures 1 <= |r| <= 2
  {
    match c
    case '\\' => "\\\\"
    case '\'' => "\\'"
    case '\n' => "\\n"
    case '\r' => "\\r"
    case _ => [c]
  }

  lemma DecodeEscapeChar(c: char, t: string)
    ensures DecodeLiteral(EscapeChar(c) + t) == Prepend(c, DecodeLiteral(t))
  {
    var b := EscapeChar(c) + t;
    if |EscapeChar(c)| == 2 {
      assert b[2..] == t;
    } else {
      assert b[1..] == t;
    }
  }

  /** With the full escaping, the input element receives exactly the message. */
  lemma {:induction false} EscapeLiteralRoundTrip(m: string)
    ensures DecodeLiteral(EscapeLiteral(m)) == Value(m)
  {
    if m != [] {
      EscapeLiteralRoundTrip(m[1..]);
      DecodeEscapeChar(m[0], EscapeLiteral(m[1..]));
      assert m == [m[0]] + m[1..];
    }
  }

  /** Quote-only escaping is right as long as the message has no backslash
      and no line break. */
  lemma {:induction false} EscapeQuotesWithoutBackslash(m: string)
    requires '\\' !in m && '\n' !in m && '\r' !in m
    ensures DecodeLiteral(EscapeQuotes(m)) == Value(m)
  {
    if m != [] {
      assert m[0] != '\\' && m[0] != '\n' && m[0] != '\r';
      assert '\\' !in m[1..] && '\n' !in m[1..] && '\r' !in m[1..];
      EscapeQuotesWithoutBackslash(m[1..]);
      assert EscapeQuotes(m) == EscapeChar(m[0]) + EscapeQuotes(m[1..]);
      DecodeEscapeChar(m[0], EscapeQuotes(m[1..]));
      assert m == [m[0]] + m[1..];
    }
  }

  /** With quote-only escaping, a message that is a lone backslash leaves the
      literal unterminated, one with a line break breaks it as well, the two
      characters backslash and `n` arrive as a line break, and a backslash
      before a quote ends the literal early, so that the rest of the message
      runs as script. */
  lemma QuoteEscapingBreaksLiterals()
    ensures DecodeLiteral(EscapeQuotes("\\")) == Broken
    ensures DecodeLiteral(EscapeQuotes("a\nb")) == Broken
    ensures DecodeLiteral(EscapeQuotes("a\\nb")) == Value("a\nb") != Value("a\\nb")
    ensures DecodeLiteral(EscapeQuotes("\\'")) == Broken
    ensures var b := EscapeQuotes("\\';alert(1);//");
      DecodeLiteral(b[..2]) == Value("\\") && b[2] == '\'' && b[3..] == ";alert(1);//"
  {
    InjectedScript();
    LoneBackslash();
    RawLineBreak();
    EscapedLetterN();
    BackslashBeforeQuote();
  }

  /** A backslash before U+2028 or U+2029 is a line continuation, which the
      decoder reports as not decoded. */
  lemma LineSeparatorsContinueLines()
    ensures DecodeLiteral("\\\U{2028}") == Unmodelled
    ensures DecodeLiteral("\\\U{2029}") == Unmodelled
  {
  }

  lemma LoneBackslash()
    ensures DecodeLiteral(EscapeQuotes("\\")) == Broken
  {
    assert EscapeQuotes("\\") == "\\";
  }

  lemma RawLineBreak()
    ensures DecodeLiteral(EscapeQuotes("a\nb")) == Broken
  {
    assert EscapeQuotes("a\nb") == "a\nb" by {
      assert EscapeQuotes("b") == "b";
      assert EscapeQuotes("\nb") == "\n" + EscapeQuotes("b");
    }
    assert DecodeLiteral("a\nb") == Prepend('a', DecodeLiteral("\nb"));
  }

  lemma EscapedLetterN()
    ensures DecodeLiteral(EscapeQuotes("a\\nb")) == Value("a\nb")
  {
    assert EscapeQuotes("a\\nb") == "a\\nb" by {
      assert EscapeQuotes("b") == "b";
      assert EscapeQuotes("nb") == "n" + EscapeQuotes("b");
      assert EscapeQuotes("\\nb") == "\\" + EscapeQuotes("nb");
    }
    assert DecodeLiteral("b") == Value("b");
    assert DecodeLiteral("\\nb") == Prepend('\n', DecodeLiteral("b"));
    assert DecodeLiteral("a\\nb") == Prepend('a', DecodeLiteral("\\nb"));
  }

  /** Without a quote a message is written as it is. */
  lemma {:induction false} NoQuoteUnchanged(m: string)
    requires '\'' !in m
    ensures EscapeQuotes(m) == m
  {
    if m != [] {
      assert '\'' !in m[1..];
      NoQuoteUnchanged(m[1..]);
      assert m == [m[0]] + m[1..];
    }
  }

  /** A message of a backslash, a quote and then any text without quotes is
      written as two backslashes, the quote and that text: the literal holds
      one backslash and is closed by the third character, and the text
      follows it as script. */
  lemma QuoteEndsLiteral(tail: string)
    requires '\'' !in tail
    ensures var b := EscapeQuotes("\\'" + tail);
      DecodeLiteral(b[..2]) == Value("\\") && b[2] == '\'' && b[3..] == tail
  {
    NoQuoteUnchanged(tail);
    var m := "\\'" + tail;
    assert m[0] == '\\' && m[1..] == "'" + tail;
    assert ("'" + tail)[0] == '\'' && ("'" + tail)[1..] == tail;
    var b := EscapeQuotes(m);
    assert EscapeQuotes("'" + tail) == "\\'" + tail;
    assert b == [m[0]] + EscapeQuotes(m[1..]);
    assert [m[0]] == "\\";
    assert b == "\\" + ("\\'" + tail);
    assert "\\" + ("\\'" + tail) == ("\\" + "\\'") + tail;
    assert "\\" + "\\'" == "\\\\'";
    var lit := b[..2];
    assert lit == "\\\\" && lit[2..] == [];
    assert DecodeLiteral(lit) == Prepend('\\', DecodeLiteral([]));
  }

  lemma InjectedScript()
    ensures var b := EscapeQuotes("\\';alert(1);//");
      DecodeLiteral(b[..2]) == Value("\\") && b[2] == '\'' && b[3..] == ";alert(1);//"
  {
    var tail := ";alert(1);//";
    assert forall i :: 0 <= i < |tail| ==> tail[i] != '\'';
    assert "\\';alert(1);//" == "\\'" + tail;
    QuoteEndsLiteral(tail);
  }

  lemma BackslashBeforeQuote()
    ensures DecodeLiteral(EscapeQuotes("\\'")) == Broken
  {
    assert EscapeQuotes("\\'") == "\\\\'" by {
      assert EscapeQuotes("'") == "\\'" + EscapeQuotes([]);
    }
    assert DecodeLiteral("\\\\'") == Prepend('\\', DecodeLiteral("'"));
  }
}
