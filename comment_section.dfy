/** The comment section under an article: its heading, the list or its
    placeholder, and the form that emits a comment only when both fields
    hold something other than white space. */
module CommentSection {
  import opened Wrappers
  import opened Text
  import opened Types

  /** What the form hands to its parent: the fields exactly as typed. */
  datatype Draft = Draft(author: string, content: string)

  /** The guard of `handleSubmit`: `author.trim() && content.trim()`. */
  predicate Accepts(author: string, content: string) {
    Trim(author) != "" && Trim(content) != ""
  }

  /** The form is accepted exactly when neither field is blank. */
  lemma AcceptsIffNeitherBlank(author: string, content: string)
    ensures Accepts(author, content) <==> !IsBlank(author) && !IsBlank(content)
  {
    TrimEmptyIffBlank(author);
    TrimEmptyIffBlank(content);
  }

  class CommentForm {
    var author: string
    var content: string

    constructor ()
      ensures author == "" && content == ""
    {
      author := "";
      content := "";
    }

    /** The author input's `onChange`. */
    method SetAuthor(text: string)
      modifies this`author
      ensures author == text
    {
      author := text;
    }

    /** The comment text area's `onChange`. */
    method SetContent(text: string)
      modifies this`content
      ensures content == text
    {
      content := text;
    }

    /** `handleSubmit`: an accepted form emits its untrimmed fields and is
        reset; a rejected one emits nothing and keeps what was typed. */
    method Submit() returns (emitted: Option<Draft>)
      modifies this`author, this`content
      ensures old(Accepts(author, content)) ==>
        emitted == Some(Draft(old(author), old(content))) && author == "" && content == ""
      ensures !old(Accepts(author, content)) ==>
        emitted == None && author == old(author) && content == old(content)
    {
      if Trim(author) != "" && Trim(content) != "" {
        emitted := Some(Draft(author, content));
        author := "";
        content := "";
      } else {
        emitted := None;
      }
    }
  }

  const HEADING_OPEN := "Comments ("

  /** The section heading, "Comments (<n>)": the number in parentheses
      reads back as the number of comments. */
  function Heading(comments: seq<Comment>): (r: string)
    ensures |r| > |HEADING_OPEN| + 1
    ensures r[..|HEADING_OPEN|] == HEADING_OPEN && r[|r| - 1] == ')'
    ensures IsDigits(r[|HEADING_OPEN|..|r| - 1])
    ensures DecimalValue(r[|HEADING_OPEN|..|r| - 1]) == |comments|
  {
    var digits := NatToString(|comments|);
    var r := HEADING_OPEN + digits + ")";
    assert r[|HEADING_OPEN|..|r| - 1] == digits;
    DecimalRoundTrip(|comments|);
    r
  }

  const PLACEHOLDER := "Be the first to leave a comment."

  /** What the list area shows. */
  datatype Listing = Placeholder(text: string) | Entries(comments: seq<Comment>)

  function ListingOf(comments: seq<Comment>): (r: Listing)
    ensures r.Placeholder? <==> |comments| == 0
    ensures r.Entries? ==> r.comments == comments
    ensures r.Placeholder? ==> r.text == PLACEHOLDER
  {
    if |comments| > 0 then Entries(comments) else Placeholder(PLACEHOLDER)
  }
}
