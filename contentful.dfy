/** The content mapper and the decisions of the CMS gateway: raw CMS field
    values, author resolution, the rich-text node rules, entry-to-article
    mapping with per-entry failure tolerance, and the error messages and
    fallbacks the gateway returns for each outcome of a CMS request. */
module ContentfulService {
  import opened Wrappers
  import opened Text
  import opened Seqs
  import opened Types

  /** The `name` and `title` fields of a CMS entry. An absent field is the
      empty string here: both are falsy, and `||` treats them alike. */
  datatype NameFields = NameFields(name: string, title: string)

  /** An entry from the `includes.Entry` list of a CMS response. */
  datatype IncludedEntry = IncludedEntry(id: string, fields: Option<NameFields>)

  /** `fields.file` of an asset; an absent `contentType` or `url` is "". */
  datatype AssetFile = AssetFile(contentType: string, url: string)

  /** `fields` of an asset; an absent `title` or `description` is "". */
  datatype AssetFields = AssetFields(title: string, description: string, file: Option<AssetFile>)

  /** A rich-text node: its `nodeType`, the fields of the asset its
      `data.target` points to (embedded assets only), its text `value`
      (text nodes only) and its children. */
  datatype RichNode = RichNode(nodeType: string, target: Option<AssetFields>, value: string, content: seq<RichNode>)

  /** A field value of unknown shape, as the CMS returns it. `Scalar` stands
      for booleans, numbers and objects of no shape the mapper looks for:
      all the mapper can observe of them is their truthiness and what
      `String(...)` gives. */
  datatype Raw =
    | Undefined
    | Null
    | Scalar(truthy: bool, shown: string)
    | Str(s: string)
    | List(items: seq<Raw>)
    | LinkStub(linkType: string, id: string)    // { sys: { type: 'Link', linkType, id } }
    | InlineEntry(fields: Option<NameFields>)   // { sys: { type: 'Entry' }, fields }
    | Node(node: RichNode)                      // an object with a `nodeType`

  /** JavaScript truthiness. */
  predicate Truthy(v: Raw) {
    match v
    case Undefined => false
    case Null => false
    case Scalar(t, _) => t
    case Str(s) => s != ""
    case _ => true
  }

  /** `String(v)`; an array joins its items with "," and shows `null` and
      `undefined` items as "". */
  function Stringify(v: Raw): (r: string)
    ensures v.Undefined? ==> r == "undefined"
    ensures v.Null? ==> r == "null"
    ensures v.Scalar? ==> r == v.shown
    ensures v.Str? ==> r == v.s
    ensures v.List? && v.items == [] ==> r == ""
    ensures v.List? && |v.items| == 1 && !v.items[0].Undefined? && !v.items[0].Null? ==> r == Stringify(v.items[0])
    ensures v.List? && AllStrings(v.items) ==> r == Join(Strings(v.items), ",")
  {
    match v
    case Undefined => "undefined"
    case Null => "null"
    case Scalar(_, shown) => shown
    case Str(s) => s
    case List(items) =>
      var parts := seq(|items|, i requires 0 <= i < |items| =>
        if items[i].Undefined? || items[i].Null? then "" else Stringify(items[i]));
      assert AllStrings(items) ==> parts == Strings(items);
      Join(parts, ",")
    case _ => "[object Object]"
  }

  // ---------------------------------------------------------------------
  // Rich text

  const DOCUMENT := "document"
  const EMBEDDED_ASSET := "embedded-asset-block"
  const QUOTE := "blockquote"
  const PARAGRAPH := "paragraph"

  const NOT_AVAILABLE := "<p>Content is not available in the expected format.</p>"
  const PARAGRAPH_OPEN := "<p class=\"mb-6 leading-relaxed\">"
  const QUOTE_OPEN := "<blockquote class=\"border-l-4 border-teal-400 dark:border-teal-500 bg-slate-100 dark:bg-slate-800 p-4 my-6 italic\">"
  const IMAGE_CLASS := "my-8 rounded-lg shadow-xl"

  predicate StartsWith(s: string, prefix: string) {
    |prefix| <= |s| && s[..|prefix|] == prefix
  }

  /** An embedded asset is shown when it has fields, a file with a URL, and
      an image MIME type. */
  predicate IsImageAsset(target: Option<AssetFields>) {
    && target.Some?
    && target.value.file.Some?
    && target.value.file.value.contentType != ""
    && target.value.file.value.url != ""
    && StartsWith(target.value.file.value.contentType, "image/")
  }

  /** `description || title || ''`. */
  function AltText(f: AssetFields): (r: string)
    ensures f.description != "" ==> r == f.description
    ensures f.description == "" ==> r == f.title
  {
    if f.description != "" then f.description else if f.title != "" then f.title else ""
  }

  /** The rule for embedded assets. */
  function EmbeddedAssetHtml(target: Option<AssetFields>): (r: string)
    ensures r != "" <==> IsImageAsset(target)
    ensures IsImageAsset(target) ==>
      r == "<img src=\"https:" + target.value.file.value.url + "\" alt=\""
           + AltText(target.value) + "\" class=\"" + IMAGE_CLASS + "\" />"
  {
    if target.Some? then
      var fields := target.value;
      var mimeType := if fields.file.Some? then fields.file.value.contentType else "";
      var url := if fields.file.Some? then fields.file.value.url else "";
      if mimeType != "" && url != "" && StartsWith(mimeType, "image/") then
        "<img src=\"https:" + url + "\" alt=\"" + AltText(fields) + "\" class=\"" + IMAGE_CLASS + "\" />"
      else ""
    else ""
  }

  /** The rule for quotes, given the children's markup. */
  function QuoteHtml(children: string): (r: string)
    ensures StartsWith(r, QUOTE_OPEN) && r[|QUOTE_OPEN|..] == children + "</blockquote>"
  {
    QUOTE_OPEN + children + "</blockquote>"
  }

  /** The rule for paragraphs, given the children's markup: an empty
      paragraph (only white space, or a lone line break) vanishes. */
  function ParagraphHtml(children: string): (r: string)
    ensures r == "" <==> IsBlank(children) || children == "<br>"
    ensures r != "" ==> r == PARAGRAPH_OPEN + children + "</p>"
  {
    TrimEmptyIffBlank(children);
    if Trim(children) == "" || children == "<br>" then "" else PARAGRAPH_OPEN + children + "</p>"
  }

  function Concat(parts: seq<string>): string {
    if parts == [] then "" else parts[0] + Concat(parts[1..])
  }

  /** Renders one node: the three custom rules, and `renderOther` (the
      rich-text library's own rendering, given the children's markup) for
      every other node type. An embedded asset's children are never used. */
  function RenderNode(n: RichNode, renderOther: (RichNode, string) -> string): (r: string)
    ensures n.nodeType == EMBEDDED_ASSET ==> r == EmbeddedAssetHtml(n.target)
    ensures n.nodeType == QUOTE ==> r == QuoteHtml(ChildrenHtml(n, renderOther))
    ensures n.nodeType == PARAGRAPH ==> r == ParagraphHtml(ChildrenHtml(n, renderOther))
    ensures n.nodeType == PARAGRAPH ==>
      (r == "" <==> IsBlank(ChildrenHtml(n, renderOther)) || ChildrenHtml(n, renderOther) == "<br>")
    ensures n.nodeType == PARAGRAPH && r != "" ==> r == PARAGRAPH_OPEN + ChildrenHtml(n, renderOther) + "</p>"
    ensures n.nodeType !in {EMBEDDED_ASSET, QUOTE, PARAGRAPH} ==> r == renderOther(n, ChildrenHtml(n, renderOther))
    decreases n, 1
  {
    if n.nodeType == EMBEDDED_ASSET then EmbeddedAssetHtml(n.target)
    else if n.nodeType == QUOTE then QuoteHtml(ChildrenHtml(n, renderOther))
    else if n.nodeType == PARAGRAPH then ParagraphHtml(ChildrenHtml(n, renderOther))
    else renderOther(n, ChildrenHtml(n, renderOther))
  }

  /** The markup of a node's children, one after the other. */
  function ChildrenHtml(n: RichNode, renderOther: (RichNode, string) -> string): string
    decreases n, 0
  {
    Concat(seq(|n.content|, i requires 0 <= i < |n.content| => RenderNode(n.content[i], renderOther)))
  }

  predicate IsDocument(field: Raw) {
    field.Node? && field.node.nodeType == DOCUMENT
  }

  /** `renderRichTextToHtml`: a document renders as its blocks one after
      the other; anything else renders as a fixed placeholder and never fails. */
  function RenderRichText(field: Raw, renderOther: (RichNode, string) -> string): (r: string)
    ensures !IsDocument(field) ==> r == NOT_AVAILABLE
    ensures IsDocument(field) ==> r == ChildrenHtml(field.node, renderOther)
  {
    if IsDocument(field) then ChildrenHtml(field.node, renderOther) else NOT_AVAILABLE
  }

  /** A paragraph node whose children render to white space renders to
      nothing, whatever the library does with the children. */
  lemma BlankParagraphVanishes(n: RichNode, renderOther: (RichNode, string) -> string)
    requires n.nodeType == PARAGRAPH
    requires forall i :: 0 <= i < |n.content| ==> RenderNode(n.content[i], renderOther) == ""
    ensures RenderNode(n, renderOther) == ""
  {
    var parts := seq(|n.content|, i requires 0 <= i < |n.content| => RenderNode(n.content[i], renderOther));
    ConcatOfEmpties(parts);
  }

  lemma {:induction false} ConcatOfEmpties(parts: seq<string>)
    requires forall i :: 0 <= i < |parts| ==> parts[i] == ""
    ensures Concat(parts) == ""
  {
    if parts != [] {
      ConcatOfEmpties(parts[1..]);
    }
  }

  // ---------------------------------------------------------------------
  // Author resolution

  const ANONYMOUS := "Anonymous"

  /** `String(fields.name || fields.title || null)`: the name, else the
      title, else the text "null". */
  function DisplayName(f: NameFields): (r: string)
    ensures r != ""
    ensures f.name != "" ==> r == f.name
    ensures f.name == "" && f.title != "" ==> r == f.title
    ensures f.name == "" && f.title == "" ==> r == "null"
  {
    if f.name != "" then f.name else if f.title != "" then f.title else "null"
  }

  /** `getAuthorFromLink`: a link stub to an entry is looked up by id among
      the included entries; an inline entry uses its own fields; anything
      else names nobody. */
  function AuthorFromLink(link: Raw, included: map<string, IncludedEntry>): (r: Option<string>)
    ensures r.Some? ==> r.value != ""
    ensures r.Some? <==>
      || (link.LinkStub? && link.linkType == "Entry" && link.id in included && included[link.id].fields.Some?)
      || (link.InlineEntry? && link.fields.Some?)
    ensures link.LinkStub? && r.Some? ==> r.value == DisplayName(included[link.id].fields.value)
    ensures link.InlineEntry? && r.Some? ==> r.value == DisplayName(link.fields.value)
  {
    match link
    case LinkStub(linkType, id) =>
      if linkType == "Entry" && id in included && included[id].fields.Some?
      then Some(DisplayName(included[id].fields.value))
      else None
    case InlineEntry(fields) =>
      if fields.Some? then Some(DisplayName(fields.value)) else None
    case _ => None
  }

  /** `.map(getAuthorFromLink).filter(name => name !== null && name !== 'null')`. */
  function ResolvedNames(refs: seq<Raw>, included: map<string, IncludedEntry>): (r: seq<string>)
    ensures |r| <= |refs|
    ensures forall k :: 0 <= k < |r| ==> r[k] != "" && r[k] != "null"
  {
    if refs == [] then []
    else
      var head := AuthorFromLink(refs[0], included);
      (if head.Some? && head.value != "null" then [head.value] else []) + ResolvedNames(refs[1..], included)
  }

  /** Every resolved name comes from a reference, and every reference that
      resolves to something other than "null" contributes its name. */
  lemma {:induction false} ResolvedNamesMembership(refs: seq<Raw>, included: map<string, IncludedEntry>, n: string)
    ensures n in ResolvedNames(refs, included) <==>
      n != "null" && exists i :: 0 <= i < |refs| && AuthorFromLink(refs[i], included) == Some(n)
  {
    if refs != [] {
      ResolvedNamesMembership(refs[1..], included, n);
      if exists i :: 0 <= i < |refs| && AuthorFromLink(refs[i], included) == Some(n) {
        var i :| 0 <= i < |refs| && AuthorFromLink(refs[i], included) == Some(n);
        if i > 0 { assert refs[1..][i - 1] == refs[i]; }
      }
      if exists i :: 0 <= i < |refs[1..]| && AuthorFromLink(refs[1..][i], included) == Some(n) {
        var i :| 0 <= i < |refs[1..]| && AuthorFromLink(refs[1..][i], included) == Some(n);
        assert refs[i + 1] == refs[1..][i];
      }
    }
  }

  /** Resolution keeps the references' order: the names of a concatenation
      are the names of each part, one after the other. */
  lemma {:induction false} ResolvedNamesAppend(a: seq<Raw>, b: seq<Raw>, included: map<string, IncludedEntry>)
    ensures ResolvedNames(a + b, included) == ResolvedNames(a, included) + ResolvedNames(b, included)
  {
    if a == [] {
      assert a + b == b;
    } else {
      var ab := a + b;
      assert ab[0] == a[0];
      assert ab[1..] == a[1..] + b;
      ResolvedNamesAppend(a[1..], b, included);
      var head := AuthorFromLink(a[0], included);
      var first := if head.Some? && head.value != "null" then [head.value] else [];
      calc {
        ResolvedNames(ab, included);
        first + ResolvedNames(ab[1..], included);
        first + (ResolvedNames(a[1..], included) + ResolvedNames(b, included));
        (first + ResolvedNames(a[1..], included)) + ResolvedNames(b, included);
      }
    }
  }

  predicate AllStrings(items: seq<Raw>) {
    forall i :: 0 <= i < |items| ==> items[i].Str?
  }

  function Strings(items: seq<Raw>): (r: seq<string>)
    requires AllStrings(items)
    ensures |r| == |items| && forall i :: 0 <= i < |items| ==> r[i] == items[i].s
  {
    seq(|items|, i requires 0 <= i < |items| => items[i].s)
  }

  function JoinedOrAnonymous(names: seq<string>): string {
    if |names| > 0 then Join(names, ", ") else ANONYMOUS
  }

  /** `getAuthorName`. */
  function AuthorName(field: Raw, included: map<string, IncludedEntry>): (r: string)
    ensures r != ""
  {
    if !Truthy(field) then ANONYMOUS
    else if field.Str? && Trim(field.s) != "" then field.s
    else if field.List? then
      if AllStrings(field.items) then
        var names := Filter(Strings(field.items), (name: string) => Trim(name) != "");
        if |names| > 0 then Join(names, ", ") else ANONYMOUS
      else
        var names := ResolvedNames(field.items, included);
        if |names| > 0 then Join(names, ", ") else ANONYMOUS
    else
      var single := AuthorFromLink(field, included);
      if single.Some? && single.value != "null" then single.value else ANONYMOUS
  }

  /** The shapes an authors field can take, decided once from the raw value. */
  datatype AuthorShape =
    | NoAuthor                        // a falsy value, or a string of white space only
    | PlainText(text: string)         // a string with a non-blank character
    | StringList(texts: seq<string>)  // an array holding strings only (also the empty array)
    | ReferenceList(refs: seq<Raw>)   // any other array
    | SingleReference(ref: Raw)       // any other truthy value

  function ShapeOf(field: Raw): AuthorShape {
    if !Truthy(field) then NoAuthor
    else if field.Str? then (if IsBlank(field.s) then NoAuthor else PlainText(field.s))
    else if field.List? then
      (if AllStrings(field.items) then StringList(Strings(field.items)) else ReferenceList(field.items))
    else SingleReference(field)
  }

  /** The display names an author field carries, shape by shape. */
  function NamesOf(shape: AuthorShape, included: map<string, IncludedEntry>): seq<string> {
    match shape
    case NoAuthor => []
    case PlainText(t) => [t]
    case StringList(ts) => Filter(ts, (t: string) => !IsBlank(t))
    case ReferenceList(refs) => ResolvedNames(refs, included)
    case SingleReference(ref) =>
      var n := AuthorFromLink(ref, included);
      if n.Some? && n.value != "null" then [n.value] else []
  }

  /** The author string is the field's names joined by ", ", or "Anonymous"
      when the field carries none. */
  lemma AuthorNameIsJoinedNames(field: Raw, included: map<string, IncludedEntry>)
    ensures AuthorName(field, included) == JoinedOrAnonymous(NamesOf(ShapeOf(field), included))
  {
    if field.Str? {
      TrimEmptyIffBlank(field.s);
    } else if field.List? && AllStrings(field.items) {
      var ts := Strings(field.items);
      forall t | t in ts ensures (Trim(t) != "") == !IsBlank(t) {
        TrimEmptyIffBlank(t);
      }
      FilterSameTest(ts, (name: string) => Trim(name) != "", (t: string) => !IsBlank(t));
    }
  }

  /** A non-blank string is used verbatim; an absent, empty or blank one
      gives "Anonymous". */
  lemma AuthorOfString(s: string, included: map<string, IncludedEntry>)
    ensures AuthorName(Str(s), included) == if IsBlank(s) then ANONYMOUS else s
  {
    TrimEmptyIffBlank(s);
  }

  /** An array of strings gives its non-blank items in order, and
      "Anonymous" when there are none (the empty array included). */
  lemma AuthorOfStringList(items: seq<Raw>, included: map<string, IncludedEntry>)
    requires AllStrings(items)
    ensures var names := Filter(Strings(items), (t: string) => !IsBlank(t));
      && IsSubsequence(names, Strings(items))
      && AuthorName(List(items), included) == JoinedOrAnonymous(names)
      && ((forall i :: 0 <= i < |items| ==> IsBlank(items[i].s)) ==> AuthorName(List(items), included) == ANONYMOUS)
  {
    AuthorNameIsJoinedNames(List(items), included);
    FilterIsSubsequence(Strings(items), (t: string) => !IsBlank(t));
  }

  /** An array that holds anything but strings resolves each reference and
      gives "Anonymous" when none resolves. */
  lemma AuthorOfReferenceList(refs: seq<Raw>, included: map<string, IncludedEntry>)
    requires !AllStrings(refs)
    ensures (forall i :: 0 <= i < |refs| ==> AuthorFromLink(refs[i], included) in {None, Some("null")})
            ==> AuthorName(List(refs), included) == ANONYMOUS
    ensures (exists i :: 0 <= i < |refs| && AuthorFromLink(refs[i], included).Some? && AuthorFromLink(refs[i], included) != Some("null"))
            ==> AuthorName(List(refs), included) == Join(ResolvedNames(refs, included), ", ")
  {
    if exists i :: 0 <= i < |refs| && AuthorFromLink(refs[i], included).Some? && AuthorFromLink(refs[i], included) != Some("null") {
      var i :| 0 <= i < |refs| && AuthorFromLink(refs[i], included).Some? && AuthorFromLink(refs[i], included) != Some("null");
      ResolvedNamesMembership(refs, included, AuthorFromLink(refs[i], included).value);
    } else if |ResolvedNames(refs, included)| > 0 {
      var n := ResolvedNames(refs, included)[0];
      ResolvedNamesMembership(refs, included, n);
      assert false;
    }
  }

  // ---------------------------------------------------------------------
  // Entry to article

  datatype EntryFields = EntryFields(title: Raw, excerpt: Raw, writtendate: Raw, authors: Raw, body: Raw, tags: Raw)

  /** A CMS entry: `sys.id` (None when the entry has no `sys`) and `fields`
      (None when it has none). */
  datatype RawEntry = RawEntry(sysId: Option<string>, fields: Option<EntryFields>)

  /** What the browser and the rich-text library contribute, as parameters:
      whether `new Date(raw)` is a valid time, its `toLocaleDateString('en-US',
      { year: 'numeric', month: 'long', day: 'numeric' })`, and the library's
      rendering of a node type with no custom rule, given the children's markup. */
  datatype Platform = Platform(
    isValidDate: Raw -> bool,
    formatDate: Raw -> string,
    renderOther: (RichNode, string) -> string)

  /** The date shown: formatted only when present and valid, "" otherwise. */
  function FormattedDate(raw: Raw, platform: Platform): (r: string)
    ensures Truthy(raw) && platform.isValidDate(raw) ==> r == platform.formatDate(raw)
    ensures !(Truthy(raw) && platform.isValidDate(raw)) ==> r == ""
  {
    if Truthy(raw) && platform.isValidDate(raw) then platform.formatDate(raw) else ""
  }

  /** `parseContentfulEntry`; None is the exception it throws when the entry
      has no `fields` or no `sys`. */
  function ParseEntry(entry: RawEntry, included: map<string, IncludedEntry>, platform: Platform): (r: Option<Article>)
    ensures r.Some? <==> entry.sysId.Some? && entry.fields.Some?
    ensures r.Some? ==>
      var a := r.value;
      var f := entry.fields.value;
      && a.id == entry.sysId.value
      && (!Truthy(f.title) ==> a.title == "Untitled")
      && (Truthy(f.title) ==> a.title == Stringify(f.title))
      && (f.title.Str? && f.title.s != "" ==> a.title == f.title.s)
      && (!Truthy(f.excerpt) ==> a.excerpt == "")
      && (Truthy(f.excerpt) ==> a.excerpt == Stringify(f.excerpt))
      && (f.excerpt.Str? ==> a.excerpt == f.excerpt.s)
      && (Truthy(f.writtendate) && platform.isValidDate(f.writtendate) ==> a.date == platform.formatDate(f.writtendate))
      && (!(Truthy(f.writtendate) && platform.isValidDate(f.writtendate)) ==> a.date == "")
      && a.author == AuthorName(f.authors, included) && a.author != ""
      && a.content == RenderRichText(f.body, platform.renderOther)
      && (!f.tags.List? ==> a.tags == [])
      && (f.tags.List? ==>
            (|a.tags| == |f.tags.items| && forall i :: 0 <= i < |a.tags| ==> a.tags[i] == Stringify(f.tags.items[i])))
      && a.comments == []
  {
    match entry.fields
    case None => None
    case Some(f) =>
      var date := FormattedDate(f.writtendate, platform);
      match entry.sysId
      case None => None
      case Some(id) =>
        Some(Article(
          id := id,
          title := Stringify(if Truthy(f.title) then f.title else Str("Untitled")),
          author := AuthorName(f.authors, included),
          date := date,
          excerpt := Stringify(if Truthy(f.excerpt) then f.excerpt else Str("")),
          content := RenderRichText(f.body, platform.renderOther),
          tags := if f.tags.List? then seq(|f.tags.items|, i requires 0 <= i < |f.tags.items| => Stringify(f.tags.items[i])) else [],
          comments := []))
  }

  /** The articles of a list of entries: each entry that parses, in order;
      an entry that fails is skipped. */
  function ParsedArticles(items: seq<RawEntry>, included: map<string, IncludedEntry>, platform: Platform): (r: seq<Article>)
    ensures |r| <= |items|
  {
    Successes(items, Parser(included, platform))
  }

  /** The parser of one entry, for a given lookup table and platform. */
  function Parser(included: map<string, IncludedEntry>, platform: Platform): RawEntry -> Option<Article> {
    e => ParseEntry(e, included, platform)
  }

  /** What one entry contributes does not depend on the entries around it. */
  lemma ParsedArticlesAppend(a: seq<RawEntry>, b: seq<RawEntry>, included: map<string, IncludedEntry>, platform: Platform)
    ensures ParsedArticles(a + b, included, platform) == ParsedArticles(a, included, platform) + ParsedArticles(b, included, platform)
  {
    SuccessesAppend(a, b, Parser(included, platform));
  }

  /** A failing entry is skipped and the entries after it are still mapped. */
  lemma SkipsFailingEntry(before: seq<RawEntry>, bad: RawEntry, after: seq<RawEntry>, included: map<string, IncludedEntry>, platform: Platform)
    requires bad.sysId.None? || bad.fields.None?
    ensures ParsedArticles(before + [bad] + after, included, platform)
         == ParsedArticles(before, included, platform) + ParsedArticles(after, included, platform)
  {
    ParsedArticlesAppend(before + [bad], after, included, platform);
    ParsedArticlesAppend(before, [bad], included, platform);
    assert ParsedArticles([bad], included, platform) == [] by {
      assert ParseEntry(bad, included, platform) == None;
      assert [bad][1..] == [];
    }
    calc {
      ParsedArticles(before + [bad] + after, included, platform);
      ParsedArticles(before + [bad], included, platform) + ParsedArticles(after, included, platform);
      (ParsedArticles(before, included, platform) + []) + ParsedArticles(after, included, platform);
    }
    assert ParsedArticles(before, included, platform) + [] == ParsedArticles(before, included, platform);
  }

  predicate WellFormed(e: RawEntry) {
    e.sysId.Some? && e.fields.Some?
  }

  /** Exactly one article per well-formed entry, so three entries with one
      malformed give two articles. */
  lemma {:induction false} ParsedArticlesCount(items: seq<RawEntry>, included: map<string, IncludedEntry>, platform: Platform)
    ensures |ParsedArticles(items, included, platform)| == |Filter(items, WellFormed)|
  {
    if items != [] {
      ParsedArticlesCount(items[1..], included, platform);
    }
  }

  /** Every article comes from some entry of the input. */
  lemma {:induction false} ParsedArticlesOrigin(items: seq<RawEntry>, included: map<string, IncludedEntry>, platform: Platform, k: nat)
    requires k < |ParsedArticles(items, included, platform)|
    ensures exists i :: 0 <= i < |items| && ParseEntry(items[i], included, platform) == Some(ParsedArticles(items, included, platform)[k])
    decreases |items|
  {
    var all := ParsedArticles(items, included, platform);
    var head := ParseEntry(items[0], included, platform);
    var rest := ParsedArticles(items[1..], included, platform);
    assert all == (if head.Some? then [head.value] else []) + rest;
    if head.Some? && k == 0 {
      assert head == Some(all[0]);
    } else {
      var j := if head.Some? then k - 1 else k;
      assert all[k] == rest[j];
      ParsedArticlesOrigin(items[1..], included, platform, j);
      var i :| 0 <= i < |items[1..]| && ParseEntry(items[1..][i], included, platform) == Some(rest[j]);
      assert items[i + 1] == items[1..][i];
    }
  }

  /** The lookup table: each included entry under its `sys.id`; a later
      entry with the same id replaces an earlier one, as `Map.set` does. */
  function IncludedById(included: seq<IncludedEntry>): map<string, IncludedEntry> {
    if included == [] then map[]
    else
      var last := included[|included| - 1];
      IncludedById(included[..|included| - 1])[last.id := last]
  }

  lemma {:induction false} IncludedByIdLookup(included: seq<IncludedEntry>, id: string)
    ensures id in IncludedById(included) <==> exists i :: 0 <= i < |included| && included[i].id == id
    ensures forall i :: 0 <= i < |included| && included[i].id == id
              && (forall j :: i < j < |included| ==> included[j].id != id)
              ==> IncludedById(included)[id] == included[i]
  {
    IncludedByIdKeys(included, id);
    forall i | 0 <= i < |included| && included[i].id == id
               && (forall j :: i < j < |included| ==> included[j].id != id)
      ensures IncludedById(included)[id] == included[i]
    {
      IncludedByIdLast(included, i);
    }
  }

  lemma {:induction false} IncludedByIdKeys(included: seq<IncludedEntry>, id: string)
    ensures id in IncludedById(included) <==> exists i :: 0 <= i < |included| && included[i].id == id
  {
    if included != [] {
      var n := |included| - 1;
      var front := included[..n];
      IncludedByIdKeys(front, id);
      if exists i :: 0 <= i < |included| && included[i].id == id {
        var i :| 0 <= i < |included| && included[i].id == id;
        if i < n { assert front[i] == included[i]; }
      }
      if exists i :: 0 <= i < |front| && front[i].id == id {
        var i :| 0 <= i < |front| && front[i].id == id;
        assert included[i] == front[i];
      }
    }
  }

  lemma {:induction false} IncludedByIdLast(included: seq<IncludedEntry>, i: nat)
    requires i < |included|
    requires forall j :: i < j < |included| ==> included[j].id != included[i].id
    ensures included[i].id in IncludedById(included)
    ensures IncludedById(included)[included[i].id] == included[i]
  {
    var n := |included| - 1;
    if i < n {
      var front := included[..n];
      assert front[i] == included[i];
      forall j | i < j < |front| ensures front[j].id != front[i].id {
        assert front[j] == included[j];
      }
      IncludedByIdLast(front, i);
    }
  }

  /** The `for` loop that fills the lookup table. */
  method IndexIncludedEntries(included: seq<IncludedEntry>) returns (m: map<string, IncludedEntry>)
    ensures m == IncludedById(included)
  {
    m := map[];
    var i := 0;
    while i < |included|
      invariant 0 <= i <= |included|
      invariant m == IncludedById(included[..i])
    {
      assert included[..i + 1][..i] == included[..i];
      m := m[included[i].id := included[i]];
      i := i + 1;
    }
    assert included[..i] == included;
  }

  lemma ParsedArticlesStep(items: seq<RawEntry>, i: nat, included: map<string, IncludedEntry>, platform: Platform)
    requires i < |items|
    ensures ParsedArticles(items[..i + 1], included, platform)
         == ParsedArticles(items[..i], included, platform)
            + match ParseEntry(items[i], included, platform) case Some(a) => [a] case None => []
  {
    ParsedArticlesAppend(items[..i], [items[i]], included, platform);
    assert items[..i + 1] == items[..i] + [items[i]];
    assert [items[i]][1..] == [];
  }

  /** The `reduce` that parses each entry and pushes the ones that parse. */
  method MapEntries(items: seq<RawEntry>, included: map<string, IncludedEntry>, platform: Platform) returns (articles: seq<Article>)
    ensures articles == ParsedArticles(items, included, platform)
  {
    articles := [];
    var i := 0;
    while i < |items|
      invariant 0 <= i <= |items|
      invariant articles == ParsedArticles(items[..i], included, platform)
    {
      ParsedArticlesStep(items, i, included, platform);
      match ParseEntry(items[i], included, platform) {
        case Some(a) => articles := articles + [a];
        case None =>
      }
      i := i + 1;
    }
    assert items[..i] == items;
  }

  // ---------------------------------------------------------------------
  // Gateway decisions

  /** The configured CMS space, access token and article content type; an
      unset value is "". */
  datatype Config = Config(spaceId: string, accessToken: string, contentTypeId: string)

  /** A failed CMS request: the error's `name` and `details.errors[0].name`. */
  datatype CmsError = CmsError(name: string, firstDetailName: Option<string>)

  /** A successful entries response: `items` (None when absent) and
      `includes.Entry` ([] when absent). */
  datatype EntryCollection = EntryCollection(items: Option<seq<RawEntry>>, includedEntries: seq<IncludedEntry>)

  const CREDENTIALS_MISSING := "Contentful credentials are not set. Please add `CONTENTFUL_SPACE_ID` and `CONTENTFUL_ACCESS_TOKEN` to your Netlify environment variables."
  const CONTENT_TYPE_MISSING := "Contentful Content Type ID is not set. Please add `CONTENTFUL_CONTENT_TYPE_ID` to your Netlify environment variables."
  const TOKEN_INVALID := "Your Contentful Access Token is invalid. Please check the `CONTENTFUL_ACCESS_TOKEN` in your Netlify environment variables."
  const CONNECTION_FAILED := "Could not connect to the content source. Please check your credentials in your Netlify environment variables and your network connection."
  const BIO_CONTENT_TYPE := "aboutMe"
  const BIO_NOT_AVAILABLE := "<p>About me content is not yet available. Please check back later.</p>"
  const BIO_TYPE_UNKNOWN := "Contentful could not find a Content Type with the ID \"" + BIO_CONTENT_TYPE
                            + "\". Please create an 'aboutMe' content type with a 'description' field."
  const BIO_FETCH_FAILED := "Could not fetch \"About Me\" information from Contentful."
  const FALLBACK_BANNER_URL := "https://images.unsplash.com/photo-1579737873652-3a18e001e405?q=80&w=2070&auto=format&fit=crop"

  predicate HasCredentials(config: Config) {
    config.spaceId != "" && config.accessToken != ""
  }

  /** The message for a failed entries request: an invalid token first,
      then an unknown content type, then a generic connection failure. */
  function ArticlesErrorMessage(e: CmsError, contentTypeId: string): (r: string)
    ensures e.name == "AccessTokenInvalid" ==> r == TOKEN_INVALID
    ensures e.name != "AccessTokenInvalid" && e.firstDetailName == Some("unknownContentType") ==>
      r == "Contentful could not find a Content Type with the ID \"" + contentTypeId
           + "\". Please check the 'CONTENTFUL_CONTENT_TYPE_ID' in your Netlify environment variables."
    ensures e.name != "AccessTokenInvalid" && e.firstDetailName != Some("unknownContentType") ==> r == CONNECTION_FAILED
  {
    if e.name == "AccessTokenInvalid" then TOKEN_INVALID
    else if e.firstDetailName == Some("unknownContentType") then
      "Contentful could not find a Content Type with the ID \"" + contentTypeId
      + "\". Please check the 'CONTENTFUL_CONTENT_TYPE_ID' in your Netlify environment variables."
    else CONNECTION_FAILED
  }

  /** `fetchArticles` given the configuration and the outcome of the
      entries request: configuration errors first, then the request's error
      as a message, else the parsed articles. */
  method FetchArticles(config: Config, response: Result<EntryCollection, CmsError>, platform: Platform)
    returns (r: Result<seq<Article>, string>)
    ensures !HasCredentials(config) ==> r == Err(CREDENTIALS_MISSING)
    ensures HasCredentials(config) && config.contentTypeId == "" ==> r == Err(CONTENT_TYPE_MISSING)
    ensures HasCredentials(config) && config.contentTypeId != "" && response.Err? ==>
      r == Err(ArticlesErrorMessage(response.error, config.contentTypeId))
    ensures HasCredentials(config) && config.contentTypeId != "" && response.Ok? ==>
      r.Ok? && r.value == match response.value.items
        case None => []
        case Some(items) => ParsedArticles(items, IncludedById(response.value.includedEntries), platform)
  {
    if !HasCredentials(config) {
      return Err(CREDENTIALS_MISSING);
    }
    if config.contentTypeId == "" {
      return Err(CONTENT_TYPE_MISSING);
    }
    match response {
      case Err(e) =>
        r := Err(ArticlesErrorMessage(e, config.contentTypeId));
      case Ok(entries) =>
        match entries.items {
          case None =>
            r := Ok([]);
          case Some(items) =>
            var included := IndexIncludedEntries(entries.includedEntries);
            var articles := MapEntries(items, included, platform);
            r := Ok(articles);
        }
    }
  }

  /** `fetchBioDescription` given the configuration and the `description`
      fields of the entries the request returned. */
  function BioDescription(config: Config, response: Result<seq<Raw>, CmsError>, renderOther: (RichNode, string) -> string)
    : (r: Result<string, string>)
    ensures !HasCredentials(config) ==> r == Err(CREDENTIALS_MISSING)
    ensures HasCredentials(config) && response.Ok? && response.value == [] ==> r == Ok(BIO_NOT_AVAILABLE)
    ensures HasCredentials(config) && response.Ok? && response.value != [] ==>
      r == Ok(RenderRichText(response.value[0], renderOther))
    ensures HasCredentials(config) && response.Err? && response.error.name == "AccessTokenInvalid" ==>
      r == Err(TOKEN_INVALID)
    ensures HasCredentials(config) && response.Err? && response.error.name != "AccessTokenInvalid"
            && response.error.firstDetailName == Some("unknownContentType") ==>
      r == Err(BIO_TYPE_UNKNOWN)
    ensures HasCredentials(config) && response.Err? && response.error.name != "AccessTokenInvalid"
            && response.error.firstDetailName != Some("unknownContentType") ==>
      r == Err(BIO_FETCH_FAILED)
  {
    if !HasCredentials(config) then Err(CREDENTIALS_MISSING)
    else match response
      case Ok(descriptions) =>
        if |descriptions| > 0 then Ok(RenderRichText(descriptions[0], renderOther)) else Ok(BIO_NOT_AVAILABLE)
      case Err(e) =>
        if e.name == "AccessTokenInvalid" then Err(TOKEN_INVALID)
        else if e.firstDetailName == Some("unknownContentType") then
          Err(BIO_TYPE_UNKNOWN)
        else Err(BIO_FETCH_FAILED)
  }

  /** `fetchAssetUrl` given the configuration and the outcome of the asset
      request (the file's URL, "" when the asset has no file or no URL): it
      never fails, and falls back to a fixed banner. */
  function AssetUrl(config: Config, lookup: Result<string, CmsError>): (r: string)
    ensures !HasCredentials(config) || lookup.Err? || (lookup.Ok? && lookup.value == "") ==> r == FALLBACK_BANNER_URL
    ensures HasCredentials(config) && lookup.Ok? && lookup.value != "" ==> r == "https:" + lookup.value
  {
    if !HasCredentials(config) then FALLBACK_BANNER_URL
    else match lookup
      case Ok(url) => if url != "" then "https:" + url else FALLBACK_BANNER_URL
      case Err(_) => FALLBACK_BANNER_URL
  }
}
