# People-n site logic in Dafny

A model of the logic inside a small React site that publishes leadership
articles from the Contentful CMS. The model covers:

- the mapping from loosely typed CMS entries to `Article` values, with
  author resolution, defaults, dates and the rich-text rules for
  paragraphs, quotes and embedded images;
- the navigation controller that keeps page, selection, theme and comments
  in step with the URL's `page` and `articleId` query parameters and the
  browser history;
- the article page: the five-state read-aloud button, the summary modal,
  the reading-time estimate with its tag stripping, and the byte loop of
  `decode`;
- the tag bar: the sorted, deduplicated tag list and the filter by tag;
- the comment form, its heading and its placeholder;
- the chat widget's message log, input guard and session handle.

One module per source file: `ContentfulService` (contentful.dfy), `App`
(app.dfy), `ArticleDetail` (article_detail.dfy), `ArticleList`
(article_list.dfy), `CommentSection` (comment_section.dfy) and `Chatbot`
(chatbot.dfy). They share `Types` (the records of `types.ts`), `Text`
(JavaScript's white space, `trim`, `join` and decimal numerals), `Seqs`
(`filter` and subsequences) and `Wrappers` (Option and Result).

Components whose state changes step by step are classes whose methods
name the fields they change:

- `App.AppController`
- `ArticleDetail.DetailController`
- `ArticleList.TagFilter`
- `CommentSection.CommentForm`
- `Chatbot.ChatWidget`

An `async` handler is split in two methods. The first is the part before its
`await`. The second is the continuation, which receives the awaited outcome
as a parameter and requires the state the first part left.

A CMS value of unknown shape is the datatype `ContentfulService.Raw`. Its
cases are undefined, null, a string, an array, a link stub, an inline entry
and a rich-text node. `Scalar` stands for any other value: only its
truthiness and its `String()` form matter. An entry's `name` and `title`
are strings, with "" standing for an absent value; both are falsy.

## Model

| member | source | states |
|---|---|---|
| ContentfulService.EmbeddedAssetHtml | services/contentfulService.ts:18-29 | markup is non-empty exactly when the asset has fields, a URL and a MIME type starting with "image/"; then it is the `<img>` with src "https:" + url and the alt text |
| ContentfulService.AltText | services/contentfulService.ts:25 | alt is the description when non-empty, else the title (else "") |
| ContentfulService.QuoteHtml | services/contentfulService.ts:30-32 | a quote is its children's markup inside the styled blockquote |
| ContentfulService.ParagraphHtml | services/contentfulService.ts:33-39 | a paragraph renders to "" exactly when its children's markup is white space only or exactly "<br>"; otherwise it is wrapped in the styled `<p>` |
| ContentfulService.RenderRichText | services/contentfulService.ts:9-45 | anything that is not a document node renders as the fixed placeholder; a document renders as its blocks in order |
| ContentfulService.BlankParagraphVanishes | services/contentfulService.ts:33-37 | a paragraph whose children all render to "" renders to "" |
| ContentfulService.Stringify | services/contentfulService.ts:120-125 | `String(v)`: a string is itself, null gives "null", undefined gives "undefined", an empty array "", a one-item array its item, an array of strings its items joined by "," |
| ContentfulService.RenderNode | services/contentfulService.ts:16-42 | an embedded asset gives its `<img>` markup and ignores its children; a quote gives the styled blockquote around its children's markup; a paragraph gives "" exactly when its children's markup is blank or "<br>", and otherwise the styled `<p>` around that markup; every other node type gets the library's rendering of its children's markup |
| ContentfulService.DisplayName | services/contentfulService.ts:62-75 | the entry's name when non-empty, else its title when non-empty, else the text "null"; never empty |
| ContentfulService.AuthorFromLink | services/contentfulService.ts:62-75 | a name is found exactly for a link stub to an included entry with fields or an inline entry with fields; a stub gives the display name of the entry looked up by its id, an inline entry the display name of its own fields |
| ContentfulService.ResolvedNames | services/contentfulService.ts:86-88 | the resolved names are at most as many as the references, and none is empty or "null" |
| ContentfulService.ResolvedNamesMembership | services/contentfulService.ts:86-88 | a name is kept exactly when some reference resolves to it and it is not "null" |
| ContentfulService.ResolvedNamesAppend | services/contentfulService.ts:86-89 | resolution keeps order: the names of a concatenation are the names of each part in turn |
| ContentfulService.AuthorName | services/contentfulService.ts:49-95 | the author string is never empty |
| ContentfulService.AuthorNameIsJoinedNames | services/contentfulService.ts:49-95 | the author string is the names the field carries (by its shape) joined by ", ", or "Anonymous" when it carries none |
| ContentfulService.AuthorOfString | services/contentfulService.ts:53-94 | a non-blank string is returned verbatim; an empty or blank one gives "Anonymous" |
| ContentfulService.AuthorOfStringList | services/contentfulService.ts:80-83 | an all-string array gives its non-blank items, in order, joined by ", "; "Anonymous" when all items are blank (the empty array too) |
| ContentfulService.AuthorOfReferenceList | services/contentfulService.ts:86-89 | a reference array gives "Anonymous" when no reference resolves, and otherwise the resolved names joined by ", " |
| ContentfulService.FormattedDate | services/contentfulService.ts:104-116 | only a present, valid date reaches the formatter; any other gives "" |
| ContentfulService.ParseEntry | services/contentfulService.ts:99-128 | parsing fails exactly when `sys` or `fields` is missing; otherwise id = sys.id; title and excerpt are `String()` of the field or the "Untitled" / "" defaults; date is the formatted date when valid and "" otherwise; author is AuthorName of the authors field; content is the rendered body; tags stringified element by element only from an array; no comments |
| ContentfulService.ParsedArticles | services/contentfulService.ts:167-179 | never more articles than entries |
| ContentfulService.ParsedArticlesAppend | services/contentfulService.ts:167-179 | each entry contributes independently of its neighbours, in order |
| ContentfulService.SkipsFailingEntry | services/contentfulService.ts:168-177 | an entry that fails to parse is skipped and the entries after it are still mapped |
| ContentfulService.ParsedArticlesCount | services/contentfulService.ts:167-179 | exactly one article per well-formed entry |
| ContentfulService.ParsedArticlesOrigin | services/contentfulService.ts:167-179 | every article is the parse of some input entry |
| ContentfulService.IncludedByIdLookup | services/contentfulService.ts:160-165 | the table holds exactly the included ids, each mapped to the last entry with that id |
| ContentfulService.IndexIncludedEntries | services/contentfulService.ts:160-165 | the loop builds that table |
| ContentfulService.MapEntries | services/contentfulService.ts:167-179 | the reduce yields exactly the parsed articles, in order |
| ContentfulService.ArticlesErrorMessage | services/contentfulService.ts:182-198 | an invalid token wins over an unknown content type, which wins over the generic connection message |
| ContentfulService.FetchArticles | services/contentfulService.ts:131-200 | missing credentials, then a missing content type, are errors before any request; a failed request becomes its message; no items gives []; otherwise the mapped entries |
| ContentfulService.BioDescription | services/contentfulService.ts:202-245 | missing credentials fail; no entry gives the not-available text; otherwise the first entry's description is rendered; a failed request gives the invalid-token message, else the unknown `aboutMe` content type message, else the generic fetch failure |
| ContentfulService.AssetUrl | services/contentfulService.ts:249-273 | never fails: "https:" + the file URL when there is one, the fixed banner otherwise |
| Text.TrimEmptyIffBlank | services/contentfulService.ts:58 | `trim()` gives "" exactly for strings of white space only |
| Text.DecimalRoundTrip | components/CommentSection.tsx:24 | the decimal numeral of a count reads back as that count |
| App.FirstValue | App.tsx:89-91 | a query parameter's value is its first occurrence; absent exactly when no parameter has that name |
| App.FindById | App.tsx:94 | the first article with the id, absent exactly when none has it |
| App.ResolveUrl | App.tsx:86-108 | nothing happens while no articles are loaded; a non-empty articleId wins: a match selects the first such article on the home page, no match leaves the state unchanged; otherwise page=about / page=articles pick those pages, anything else home, and the selection is cleared |
| App.SelectRoundTrip | App.tsx:93-142 | resolving the URL pushed for a selected article (non-empty id) selects an article with that id |
| App.NavigateRoundTrip | App.tsx:99-136 | resolving the URL pushed for page p gives page p with nothing selected |
| App.WithComment | App.tsx:164-172 | same length and order; matching articles get the comment appended and nothing else changed; the others are untouched |
| App.SelectedWithComment | App.tsx:176-178 | the selection gets the comment appended exactly when its id matches; otherwise it is untouched |
| App.CommentCopiesAgree | App.tsx:164-178 | a selected article equal to a list element stays equal to it after the comment |
| App.Toggled | App.tsx:125-127 | toggling gives light or dark, and dark exactly when the theme was light |
| App.ToggleTwice | App.tsx:125-127 | toggling twice restores light or dark |
| App.InitialTheme | App.tsx:30-38 | a stored preference wins; otherwise dark exactly when the system prefers dark |
| App.AppController.constructor | App.tsx:21-28 | initial state: no articles, nothing selected, home, dark, loading |
| App.AppController.View | App.tsx:181-238 | without loading or error a selected article is always what is shown, over any page |
| App.AppController.InitTheme | App.tsx:30-38 | the theme effect sets the initial theme |
| App.AppController.LoadContent | App.tsx:41-70 | loading ends either way; success stores the articles, banner and bio; failure stores the message and nothing else |
| App.AppController.HandleUrlChange | App.tsx:88-109 | the new page and selection are those ResolveUrl gives |
| App.AppController.ToggleTheme | App.tsx:125-127 | the theme becomes Toggled of the old one |
| App.AppController.Navigate | App.tsx:129-136 | no change and no push when p is already shown with nothing selected; otherwise page p, no selection and exactly one pushed URL |
| App.AppController.SelectArticle | App.tsx:138-142 | selects the article and pushes its URL, page untouched |
| App.AppController.GoBack | App.tsx:144-147 | navigating to the articles page |
| App.AppController.GoHome | App.tsx:149-151 | navigating to the home page |
| App.AppController.AddComment | App.tsx:153-179 | list and selection become WithComment and SelectedWithComment of the stamped comment |
| App.BackButtonScenario | App.tsx:88-147 | open article, go back to the list, press the browser's back button: the detail, the list, then the same article again, with two pushed URLs |
| ArticleDetail.AfterTag | components/ArticleDetail.tsx:132 | a tag with no closing '>' swallows the rest |
| ArticleDetail.StripTags | components/ArticleDetail.tsx:132 | the stripped text has no '<' and is no longer than the input |
| ArticleDetail.StripTagsKeepsPlainText | components/ArticleDetail.tsx:132 | text without '<' is unchanged |
| ArticleDetail.StripTagsIdempotent | components/ArticleDetail.tsx:132 | stripping twice is stripping once |
| ArticleDetail.StripClosedTag | components/ArticleDetail.tsx:132 | a '<' is removed with everything up to and including the next '>' |
| ArticleDetail.StripOpenTag | components/ArticleDetail.tsx:132 | a '<' with no later '>' removes everything to the end |
| ArticleDetail.SplitOnWhitespace | components/ArticleDetail.tsx:134 | at least one piece, and no piece holds white space |
| ArticleDetail.SplitKeepsText | components/ArticleDetail.tsx:134 | the pieces hold exactly the text's non-white-space characters, in order |
| ArticleDetail.SplitWord | components/ArticleDetail.tsx:134 | text without white space is a single piece |
| ArticleDetail.SplitCount | components/ArticleDetail.tsx:134 | the number of pieces is one more than the number of maximal runs of white space |
| ArticleDetail.ReadingTime | components/ArticleDetail.tsx:131-136 | the least number of minutes at 225 words each covering the word count (one more than the number of white-space runs in the stripped text), never below 1 |
| ArticleDetail.DisabledIffClickIgnored | components/ArticleDetail.tsx:80-171 | the button is disabled exactly in the states where a click changes nothing (generating, error) |
| ArticleDetail.PauseResume | components/ArticleDetail.tsx:111-117 | pause then resume returns to playing |
| ArticleDetail.ButtonText | components/ArticleDetail.tsx:146-172 | the label is a generating or error label exactly when the button is disabled |
| ArticleDetail.DetailController.constructor | components/ArticleDetail.tsx:53-61 | idle audio without handles; modal closed with no summary |
| ArticleDetail.DetailController.Click | components/ArticleDetail.tsx:80-117 | idle starts generating; playing suspends and pauses; paused resumes and plays; generating and error do nothing; handles are held exactly while playing or paused |
| ArticleDetail.DetailController.SynthesisSettled | components/ArticleDetail.tsx:84-110 | started playback ends in playing with both handles; no data or a throw ends in error with none |
| ArticleDetail.DetailController.PlaybackEnded | components/ArticleDetail.tsx:96-101 | natural end returns to idle and clears both handles |
| ArticleDetail.DetailController.Summarize | components/ArticleDetail.tsx:71-74 | opens the modal, clears the summary, sets the flag |
| ArticleDetail.DetailController.SummaryReady | components/ArticleDetail.tsx:75-77 | stores the result and clears the flag |
| ArticleDetail.DetailController.CloseModal | components/ArticleDetail.tsx:126-129 | hides the modal and clears the summary |
| ArticleDetail.Decode | components/ArticleDetail.tsx:22-30 | as many bytes as characters, byte i being character code i |
| ArticleList.LexLessIrreflexive | components/ArticleList.tsx:20 | no string sorts before itself |
| ArticleList.LexLessTransitive | components/ArticleList.tsx:20 | the sort order is transitive |
| ArticleList.LexLessTotal | components/ArticleList.tsx:20 | of two different strings one sorts first |
| ArticleList.Insert | components/ArticleList.tsx:20 | inserting into a sorted list keeps it sorted and adds exactly that string |
| ArticleList.Sort | components/ArticleList.tsx:20 | the sorted list is a permutation of the input, in ascending order |
| ArticleList.SortedDistinctStrict | components/ArticleList.tsx:16-20 | sorting distinct strings gives a strictly ascending list |
| ArticleList.AllTags | components/ArticleList.tsx:15-21 | a string is listed exactly when some article carries it, each once, in ascending order |
| Seqs.FilterCount | components/ArticleList.tsx:27 | filtering keeps each passing value exactly as often as it occurs and drops each failing one |
| ArticleList.FilterByTag | components/ArticleList.tsx:23-28 | no (or empty) active tag gives the input; otherwise exactly the input's articles carrying the tag, each as often as it occurs in the input |
| ArticleList.FilterByTagIsSubsequence | components/ArticleList.tsx:23-28 | the filtered list keeps the input order |
| ArticleList.TagOfSomeArticleSelectsSome | components/ArticleList.tsx:15-28 | filtering by any tag an article carries leaves at least one article |
| ArticleList.TagFilter.constructor | components/ArticleList.tsx:13 | no tag is active at first |
| ArticleList.TagFilter.SetActiveTag | components/ArticleList.tsx:37-51 | a tag button sets the active tag; "All" clears it |
| CommentSection.AcceptsIffNeitherBlank | components/CommentSection.tsx:15 | the form is accepted exactly when neither field is blank |
| CommentSection.CommentForm.constructor | components/CommentSection.tsx:10-11 | both fields start empty |
| CommentSection.CommentForm.SetAuthor | components/CommentSection.tsx:51 | typing sets the author field |
| CommentSection.CommentForm.SetContent | components/CommentSection.tsx:62 | typing sets the content field |
| CommentSection.CommentForm.Submit | components/CommentSection.tsx:13-20 | accepted: the untrimmed fields are emitted and both reset to ""; rejected: nothing emitted, fields unchanged |
| CommentSection.Heading | components/CommentSection.tsx:24 | "Comments (" + a numeral + ")" whose value is the number of comments |
| CommentSection.ListingOf | components/CommentSection.tsx:27-39 | the placeholder shows exactly when there are no comments |
| Chatbot.ChatWidget.constructor | components/Chatbot.tsx:14-23 | the log is the one greeting; no session, not loading, closed, empty input |
| Chatbot.ChatWidget.SetOpen | components/Chatbot.tsx:64-82 | the open and close buttons |
| Chatbot.ChatWidget.SetInput | components/Chatbot.tsx:124 | typing sets the input |
| Chatbot.ChatWidget.Submit | components/Chatbot.tsx:34-41 | blank input or a pending reply changes nothing; otherwise one user message with the text is appended, the input cleared, loading set, and the request carries the stored session |
| Chatbot.ChatWidget.ReplyArrived | components/Chatbot.tsx:43-57 | success stores the new session and appends the answer; failure appends the apology and keeps the session; loading ends; the log alternates greeting/AI and user throughout |
| Chatbot.TwoTurns | components/Chatbot.tsx:34-57 | the second request carries the session the first answer returned, and the log is greeting, question, answer, question |

## Left out

- Network access: the Contentful and generative-AI clients, and `getContentType`. Their outcomes are parameters (`Result` values, `Synthesis`, `Reply`, the summary text).
- The site's configuration (`config.ts` reads environment variables) is a `Config` parameter.
- The diagnostic panel `components/ContentfulDebug.tsx` and its fetch are not part of this model.
- The presentational components, pages and icons are not part of this model.
- Logging is not modelled: the `console.error` and `console.warn` calls, including the per-entry "Skipping." message for an entry that fails to parse, have no counterpart.
- An included entry without `sys` makes the lookup-table loop throw inside the request's `try`, so the whole fetch ends in the connection-failed message. The model's included entries always carry an id, so that path is not modelled.
- Date parsing and formatting (`new Date`, `toLocaleDateString`) are parameters: a validity predicate and a formatter. `Date.now()` for comment ids is a parameter too. Nothing is claimed about ids increasing.
- The rich-text library's tree walk is modelled only through the three custom node rules. Its rendering of every other node type is a parameter. Exceptions the library might throw while rendering are not modelled.
- `String()` of numbers, booleans and objects is not computed: such values carry their string form in `Scalar`.
- `atob` (base64 decoding, RFC 4648 section 4) is not modelled: `Decode` starts from its output.
- `decodeAudioData` is not modelled: it involves floating-point samples and browser audio buffers.
- The component-unmount cleanup that stops the audio source and closes the context is not modelled.
- When synthesis fails after an audio context was created, the source leaks that context. The model simply holds no context in the error state.
- ArticleList.LexLess compares characters by code point. JavaScript's default sort compares UTF-16 code units. The two orders differ only for characters outside the Basic Multilingual Plane.
- URLs are modelled as their parsed query parameters. Percent-encoding and the unencoded id interpolated by `handleSelectArticle` are not modelled.
- The popstate listener's registration and removal are not modelled. `App.AppController.HandleUrlChange` is called wherever the browser would fire it.
- The effect's re-run when the articles change is not modelled either.
- App.AppController.LoadContent takes the joint result of the four concurrent requests as one outcome. The `Promise.all` concurrency and the order in which requests settle are not modelled.
- `LoadContent` also does not model the fallback message for a thrown non-`Error` value: the message is given.
- Browser side effects are not modelled:
  - `localStorage` writes and the `dark` class on the document;
  - `window.scrollTo`;
  - clipboard copies and the `setTimeout` flags that reset them;
  - share URLs built with `encodeURIComponent`;
  - scrolling the chat log.
- Chatbot.ChatWidget.Submit takes the session as an opaque value. The AI client's creation of a new chat session is not modelled.
