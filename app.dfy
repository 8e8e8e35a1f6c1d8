/** The navigation controller: the current page, the selected article, the
    theme and the loaded content, kept in step with the URL's query
    parameters (`page`, `articleId`) and the browser history. */
module App {
  import opened Wrappers
  import opened Types

  datatype Page = Home | Articles | About

  function PageName(p: Page): string {
    match p
    case Home => "home"
    case Articles => "articles"
    case About => "about"
  }

  /** A URL of the site, given by its query parameters in order; the path
      is the same for every URL the site pushes. */
  datatype Location = Location(query: seq<(string, string)>)

  function FirstValue(query: seq<(string, string)>, name: string): (r: Option<string>)
    ensures r.None? <==> forall i :: 0 <= i < |query| ==> query[i].0 != name
    ensures r.Some? ==> exists i :: 0 <= i < |query| && query[i] == (name, r.value)
                                    && forall j :: 0 <= j < i ==> query[j].0 != name
  {
    if query == [] then None
    else if query[0].0 == name then Some(query[0].1)
    else
      FirstValue(query[1..], name)
  }

  /** `new URLSearchParams(location.search).get(name)`. */
  function Param(loc: Location, name: string): Option<string> {
    FirstValue(loc.query, name)
  }

  /** The URL `handleNavigate` pushes: the bare path for home, `?page=<p>` otherwise. */
  function PageUrl(p: Page): Location {
    if p == Home then Location([]) else Location([("page", PageName(p))])
  }

  /** The URL `handleSelectArticle` pushes: `?articleId=<id>`. */
  function ArticleUrl(id: string): Location {
    Location([("articleId", id)])
  }

  datatype NavState = NavState(page: Page, selected: Option<Article>)

  /** `articles.find(a => a.id === id)`: the first article with that id. */
  function FindById(articles: seq<Article>, id: string): (r: Option<Article>)
    ensures r.None? <==> forall i :: 0 <= i < |articles| ==> articles[i].id != id
    ensures r.Some? ==> r.value.id == id && exists i :: 0 <= i < |articles| && articles[i] == r.value
                                                        && forall j :: 0 <= j < i ==> articles[j].id != id
  {
    if articles == [] then None
    else if articles[0].id == id then Some(articles[0])
    else
      FindById(articles[1..], id)
  }

  /** `handleUrlChange`, run once the articles are loaded and on every
      `popstate`: a non-empty `articleId` wins over `page`; an id that
      matches no article leaves the state as it was; otherwise `page`
      picks the page and the selection is cleared. */
  function ResolveUrl(loc: Location, articles: seq<Article>, s: NavState): (r: NavState)
    ensures |articles| == 0 ==> r == s
    ensures |articles| > 0 && Param(loc, "articleId").Some? && Param(loc, "articleId").value != "" ==>
      var id := Param(loc, "articleId").value;
      && ((forall i :: 0 <= i < |articles| ==> articles[i].id != id) ==> r == s)
      && ((exists i :: 0 <= i < |articles| && articles[i].id == id) ==>
            && r.page == Home
            && r.selected.Some? && r.selected.value.id == id
            && exists i :: 0 <= i < |articles| && articles[i] == r.selected.value
                           && forall j :: 0 <= j < i ==> articles[j].id != id)
    ensures |articles| > 0 && (Param(loc, "articleId").None? || Param(loc, "articleId").value == "") ==>
      && r.selected.None?
      && (r.page == About <==> Param(loc, "page") == Some("about"))
      && (r.page == Articles <==> Param(loc, "page") == Some("articles"))
  {
    if |articles| == 0 then s
    else
      var articleId := Param(loc, "articleId");
      var page := Param(loc, "page");
      if articleId.Some? && articleId.value != "" then
        match FindById(articles, articleId.value)
        case Some(a) => NavState(Home, Some(a))
        case None => s
      else if page == Some("about") then NavState(About, None)
      else if page == Some("articles") then NavState(Articles, None)
      else NavState(Home, None)
  }

  /** Reloading the URL pushed for a selected article selects an article
      with the same id again (ids are non-empty in the CMS; an empty id is
      falsy and would be read as no `articleId` at all). */
  lemma SelectRoundTrip(a: Article, articles: seq<Article>, s: NavState)
    requires a in articles && a.id != ""
    ensures var r := ResolveUrl(ArticleUrl(a.id), articles, s);
      r.selected.Some? && r.selected.value.id == a.id && r.page == Home
  {
    var i :| 0 <= i < |articles| && articles[i] == a;
    assert Param(ArticleUrl(a.id), "articleId") == Some(a.id);
  }

  /** Reloading the URL pushed by `handleNavigate(p)` gives page `p` with
      nothing selected. */
  lemma NavigateRoundTrip(p: Page, articles: seq<Article>, s: NavState)
    requires |articles| > 0
    ensures ResolveUrl(PageUrl(p), articles, s) == NavState(p, None)
  {
    assert Param(PageUrl(p), "articleId").None?;
    if p != Home {
      assert Param(PageUrl(p), "page") == Some(PageName(p));
    }
  }

  /** The comment appended to an article's comments, everything else kept. */
  function AddCommentTo(a: Article, c: Comment): Article {
    a.(comments := a.comments + [c])
  }

  /** The article list after `handleAddComment(id, ...)`. */
  function WithComment(articles: seq<Article>, id: string, c: Comment): (r: seq<Article>)
    ensures |r| == |articles|
    ensures forall i :: 0 <= i < |r| && articles[i].id == id ==>
      r[i].comments == articles[i].comments + [c] && r[i].(comments := articles[i].comments) == articles[i]
    ensures forall i :: 0 <= i < |r| && articles[i].id != id ==> r[i] == articles[i]
  {
    if articles == [] then []
    else
      [if articles[0].id == id then AddCommentTo(articles[0], c) else articles[0]]
      + WithComment(articles[1..], id, c)
  }

  /** The selected article after `handleAddComment(id, ...)`. */
  function SelectedWithComment(selected: Option<Article>, id: string, c: Comment): (r: Option<Article>)
    ensures selected.Some? && selected.value.id == id ==>
      r.Some? && r.value.comments == selected.value.comments + [c]
      && r.value.(comments := selected.value.comments) == selected.value
    ensures !(selected.Some? && selected.value.id == id) ==> r == selected
  {
    if selected.Some? && selected.value.id == id then Some(AddCommentTo(selected.value, c)) else selected
  }

  /** When the selected article is an element of the list, both copies
      receive the comment alike and stay equal. */
  lemma CommentCopiesAgree(articles: seq<Article>, i: nat, id: string, c: Comment)
    requires i < |articles|
    ensures SelectedWithComment(Some(articles[i]), id, c) == Some(WithComment(articles, id, c)[i])
  {
  }

  const LIGHT := "light"
  const DARK := "dark"

  /** `toggleTheme`: light becomes dark, anything else becomes light. */
  function Toggled(theme: string): (r: string)
    ensures r == LIGHT || r == DARK
    ensures r == DARK <==> theme == LIGHT
  {
    if theme == LIGHT then DARK else LIGHT
  }

  lemma ToggleTwice(theme: string)
    requires theme == LIGHT || theme == DARK
    ensures Toggled(Toggled(theme)) == theme
  {
  }

  /** The theme at start: a stored (non-empty) preference, else dark exactly
      when the system prefers dark. */
  function InitialTheme(stored: Option<string>, prefersDark: bool): (r: string)
    ensures stored.Some? && stored.value != "" ==> r == stored.value
    ensures (stored.None? || stored.value == "") ==> (r == DARK <==> prefersDark) && (r == LIGHT <==> !prefersDark)
  {
    if stored.Some? && stored.value != "" then stored.value
    else if prefersDark then DARK else LIGHT
  }

  /** What the page shows, in `renderContent`'s order of precedence. */
  datatype Screen = Spinner | ErrorPanel(message: string) | DetailView(article: Article)
                  | ArticlesView | AboutView(bio: Bio) | Blank | HomeView

  /** The result of the joint initial load. */
  datatype LoadedContent = LoadedContent(articles: seq<Article>, bannerUrl: string, bioImageUrl: string, bioDescription: string)

  const BIO_NAME := "Vikas Verma"

  class AppController {
    var articles: seq<Article>
    var selected: Option<Article>
    var page: Page
    var theme: string
    /** The URLs pushed with `history.pushState`, oldest first. */
    var history: seq<Location>
    var isLoading: bool
    var error: Option<string>
    var bannerImageUrl: string
    var bio: Option<Bio>

    constructor ()
      ensures articles == [] && selected == None && page == Home && theme == DARK && history == []
      ensures isLoading && error == None && bannerImageUrl == "" && bio == None
    {
      articles := [];
      selected := None;
      page := Home;
      theme := DARK;
      history := [];
      isLoading := true;
      error := None;
      bannerImageUrl := "";
      bio := None;
    }

    function Nav(): NavState
      reads this
    {
      NavState(page, selected)
    }

    /** What `renderContent` shows: the spinner, then an error, then the
        selected article, which takes precedence over the current page. */
    function View(): (r: Screen)
      reads this
      ensures !isLoading && (error.None? || error.value == "") && selected.Some? ==> r == DetailView(selected.value)
      ensures r.DetailView? ==> selected == Some(r.article)
    {
      if isLoading then Spinner
      else if error.Some? && error.value != "" then ErrorPanel(error.value)
      else if selected.Some? then DetailView(selected.value)
      else match page
        case Articles => ArticlesView
        case About => if bio.Some? then AboutView(bio.value) else Blank
        case Home => HomeView
    }

    /** The theme effect at start. */
    method InitTheme(stored: Option<string>, prefersDark: bool)
      modifies this`theme
      ensures theme == InitialTheme(stored, prefersDark)
    {
      if stored.Some? && stored.value != "" {
        theme := stored.value;
      } else {
        theme := if prefersDark then DARK else LIGHT;
      }
    }

    /** The end of `loadContent`: the joint result of the four requests, or
        the message of the first failure. */
    method LoadContent(outcome: Result<LoadedContent, string>)
      modifies this`articles, this`bannerImageUrl, this`bio, this`error, this`isLoading
      ensures !isLoading
      ensures outcome.Ok? ==>
        && articles == outcome.value.articles
        && bannerImageUrl == outcome.value.bannerUrl
        && bio == Some(Bio(BIO_NAME, outcome.value.bioDescription, outcome.value.bioImageUrl))
        && error == old(error)
      ensures outcome.Err? ==>
        && error == Some(outcome.error)
        && articles == old(articles) && bannerImageUrl == old(bannerImageUrl) && bio == old(bio)
    {
      match outcome {
        case Ok(content) =>
          articles := content.articles;
          bannerImageUrl := content.bannerUrl;
          bio := Some(Bio(BIO_NAME, content.bioDescription, content.bioImageUrl));
        case Err(message) =>
          error := Some(message);
      }
      isLoading := false;
    }

    /** `handleUrlChange` for the URL the browser now shows. */
    method HandleUrlChange(loc: Location)
      modifies this`page, this`selected
      ensures Nav() == ResolveUrl(loc, articles, old(Nav()))
    {
      if |articles| == 0 {
        return;
      }
      var articleId := Param(loc, "articleId");
      var pageParam := Param(loc, "page");
      if articleId.Some? && articleId.value != "" {
        var found := FindById(articles, articleId.value);
        if found.Some? {
          selected := found;
          page := Home;
        }
      } else if pageParam == Some("about") {
        selected := None;
        page := About;
      } else if pageParam == Some("articles") {
        selected := None;
        page := Articles;
      } else {
        selected := None;
        page := Home;
      }
    }

    method ToggleTheme()
      modifies this`theme
      ensures theme == Toggled(old(theme))
    {
      theme := if theme == LIGHT then DARK else LIGHT;
    }

    /** `handleNavigate(p)`: nothing happens when `p` is already shown;
        otherwise the page is set, the selection cleared and one URL pushed. */
    method Navigate(p: Page)
      modifies this`page, this`selected, this`history
      ensures old(p == page && selected.None?) ==> page == old(page) && selected == old(selected) && history == old(history)
      ensures !old(p == page && selected.None?) ==> page == p && selected == None && history == old(history) + [PageUrl(p)]
    {
      if p == page && selected.None? {
        return;
      }
      page := p;
      selected := None;
      history := history + [PageUrl(p)];
    }

    /** `handleSelectArticle(a)`: the page is left as it is. */
    method SelectArticle(a: Article)
      modifies this`selected, this`history
      ensures selected == Some(a) && history == old(history) + [ArticleUrl(a.id)]
    {
      selected := Some(a);
      history := history + [ArticleUrl(a.id)];
    }

    /** `handleGoBack`: navigating to the articles page. */
    method GoBack()
      modifies this`page, this`selected, this`history
      ensures old(page == Articles && selected.None?) ==> page == old(page) && selected == old(selected) && history == old(history)
      ensures !old(page == Articles && selected.None?) ==> page == Articles && selected == None && history == old(history) + [PageUrl(Articles)]
    {
      Navigate(Articles);
    }

    /** `handleGoHome`: navigating to the home page. */
    method GoHome()
      modifies this`page, this`selected, this`history
      ensures old(page == Home && selected.None?) ==> page == old(page) && selected == old(selected) && history == old(history)
      ensures !old(page == Home && selected.None?) ==> page == Home && selected == None && history == old(history) + [PageUrl(Home)]
    {
      Navigate(Home);
    }

    /** `handleAddComment`: the comment, stamped with the current time and
        date, is appended to every article with that id and to the selected
        article when its id matches. */
    method AddComment(articleId: string, author: string, content: string, now: int, today: string)
      modifies this`articles, this`selected
      ensures articles == WithComment(old(articles), articleId, Comment(now, author, content, today))
      ensures selected == SelectedWithComment(old(selected), articleId, Comment(now, author, content, today))
    {
      var comment := Comment(now, author, content, today);
      articles := WithComment(articles, articleId, comment);
      if selected.Some? && selected.value.id == articleId {
        selected := Some(AddCommentTo(selected.value, comment));
      }
    }
  }

  /** A visit: the site loads at the bare path, the reader opens article
      `x`, goes back to the article list, then presses the browser's back
      button, which restores the URL pushed before the last one. */
  method BackButtonScenario(x: Article, others: seq<Article>)
    returns (shown: Screen, listed: Screen, restored: Screen, pushed: seq<Location>)
    requires x.id != ""
    ensures shown == DetailView(x)
    ensures listed == ArticlesView
    ensures restored.DetailView? && restored.article.id == x.id
    ensures pushed == [ArticleUrl(x.id), PageUrl(Articles)]
  {
    var app := new AppController();
    app.LoadContent(Ok(LoadedContent([x] + others, "", "", "")));
    app.HandleUrlChange(Location([]));
    app.SelectArticle(x);
    shown := app.View();
    app.GoBack();
    listed := app.View();
    pushed := app.history;
    SelectRoundTrip(x, app.articles, app.Nav());
    app.HandleUrlChange(pushed[|pushed| - 2]);
    restored := app.View();
  }
}
