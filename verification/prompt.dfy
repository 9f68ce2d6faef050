/** Prompt rendering: the issue fields the analyzer reads from the tracker's
    reply, the rendering of the comment thread, and the fixed instruction
    template the fields are substituted into. */
module Prompt {
  import opened Options
  import opened JavaText

  /** `fields.comment.comments[i].author`: only the display name is read. */
  datatype Author = Author(displayName: Nullable)

  /** One entry of `fields.comment.comments`; `author` is `None` when the
      comment carries no author object. */
  datatype Comment = Comment(created: Nullable, author: Option<Author>, body: Nullable)

  /** The projection of a tracker issue that prompt generation reads:
      `fields.summary`, `fields.description`, the size of `fields.attachment`,
      `fields.issuetype.name`, `fields.status.name` and the comment list in the
      order the tracker returned it. */
  datatype Issue = Issue(
    summary: Nullable,
    description: Nullable,
    attachmentCount: nat,
    issueType: Nullable,
    status: Nullable,
    comments: seq<Comment>)

  /** One comment as `created - displayName: body` followed by the platform's
      line separator; `None` is the NullPointerException thrown when the
      comment has no author. */
  function CommentLine(c: Comment, lineSeparator: string): Option<string> {
    match c.author
    case None => None
    case Some(a) => Some(Show(c.created) + " - " + Show(a.displayName) + ": " + Show(c.body) + lineSeparator)
  }

  /** The comments section: the comment lines in list order, or `None` when
      some comment has no author. */
  function RenderComments(cs: seq<Comment>, lineSeparator: string): Option<string>
    decreases |cs|
  {
    if |cs| == 0 then Some("")
    else match (CommentLine(cs[0], lineSeparator), RenderComments(cs[1..], lineSeparator))
      case (Some(line), Some(rest)) => Some(line + rest)
      case _ => None
  }

  predicate HasAuthors(cs: seq<Comment>) {
    forall i :: 0 <= i < |cs| ==> cs[i].author.Some?
  }

  /** Rendering fails exactly when some comment has no author. */
  lemma {:induction false} RenderCommentsDefined(cs: seq<Comment>, lineSeparator: string)
    ensures RenderComments(cs, lineSeparator).Some? <==> HasAuthors(cs)
    decreases |cs|
  {
    if |cs| > 0 {
      RenderCommentsDefined(cs[1..], lineSeparator);
      assert HasAuthors(cs) <==> cs[0].author.Some? && HasAuthors(cs[1..]) by {
        if cs[0].author.Some? && HasAuthors(cs[1..]) {
          forall i | 0 <= i < |cs| ensures cs[i].author.Some? {
            if i > 0 { assert cs[i] == cs[1..][i - 1]; }
          }
        }
      }
    }
  }

  /** The comments section of a list is the section of its first part
      followed by the section of the rest: comments appear in list order and
      nothing is added between them. */
  lemma {:induction false} RenderCommentsAppend(a: seq<Comment>, b: seq<Comment>, lineSeparator: string)
    requires HasAuthors(a) && HasAuthors(b)
    ensures RenderComments(a, lineSeparator).Some? && RenderComments(b, lineSeparator).Some?
    ensures RenderComments(a + b, lineSeparator) ==
      Some(RenderComments(a, lineSeparator).value + RenderComments(b, lineSeparator).value)
    decreases |a|
  {
    RenderCommentsDefined(a, lineSeparator);
    RenderCommentsDefined(b, lineSeparator);
    if |a| == 0 {
      assert a + b == b;
      assert RenderComments(a, lineSeparator).value + RenderComments(b, lineSeparator).value
          == RenderComments(b, lineSeparator).value;
    } else {
      assert (a + b)[0] == a[0];
      assert (a + b)[1..] == a[1..] + b;
      assert HasAuthors(a[1..]) by {
        forall i | 0 <= i < |a[1..]| ensures a[1..][i].author.Some? {
          assert a[1..][i] == a[i + 1];
        }
      }
      RenderCommentsAppend(a[1..], b, lineSeparator);
      var line := CommentLine(a[0], lineSeparator).value;
      var ra, rb := RenderComments(a[1..], lineSeparator).value, RenderComments(b, lineSeparator).value;
      assert line + (ra + rb) == (line + ra) + rb;
    }
  }

  /** The comments section of an empty thread is empty, and one comment
      contributes exactly its own line. */
  lemma RenderCommentsSmall(c: Comment, lineSeparator: string)
    ensures RenderComments([], lineSeparator) == Some("")
    ensures c.author.Some? ==>
      RenderComments([c], lineSeparator) ==
      Some(Show(c.created) + " - " + Show(c.author.value.displayName) + ": " + Show(c.body) + lineSeparator)
    ensures c.author.None? ==> RenderComments([c], lineSeparator) == None
  {
    assert [c][1..] == [];
    assert RenderComments([c][1..], lineSeparator) == Some("");
    if c.author.Some? {
      var line := CommentLine(c, lineSeparator).value;
      assert line + "" == line;
    }
  }

  /** The instruction text in front of the field dump, as the Java text block
      yields it once its common indentation is stripped, cut into short
      pieces at word boundaries. */
  const PreamblePieces: seq<string> := [
    "Analyze the following Jira issue and ",
    "report whether it contains adequate ",
    "user acceptance criteria to allow ",
    "members involved in the Agile pipeline ",
    "to understand what is necessary to ",
    "validate the changes on the issue. The ",
    "idea is to help us decide whether we ",
    "need to ask the issue reporters to ",
    "provide more information if necessary.\n",
    "  Respond in the following JSON format:\n",
    "\n",
    "  {\"contains_uac\": <boolean>, ",
    "\"should_manually_review\": <boolean>}\n",
    "\n",
    "  Guidelines:\n",
    "  - If the issue clearly describes, ",
    "implies, outlines, or references any ",
    "sort of context, information, ",
    "instructions, or attachments that seem ",
    "to provide an idea of what is ",
    "necessary, respond with ",
    "{\"contains_uac\": true}\n",
    "  - If the issue details are lacking in ",
    "information and/or attachments and ",
    "likely don't contain sufficient ",
    "specific criteria for our QA team, ",
    "respond with {\"contains_uac\": false}.\n",
    "  - If you are unsure or unable to ",
    "determine whether the issue contains ",
    "user acceptance criteria and are ",
    "confident that further review is ",
    "warranted, respond with ",
    "{\"contains_uac\": <boolean>, ",
    "\"should_manually_review\": true}, ",
    "otherwise respond with {\"contains_uac\": ",
    "<boolean>, \"should_manually_review\": ",
    "false}. Use this option SPARINGLY.\n",
    "\n",
    "  Jira issue:\n"]

  const Preamble: string := Joined(PreamblePieces, 0)

  /** The field labels, in the order they appear. */
  const Labels: seq<string> := ["Title: ", "Description: ", "Attachments: ", "Issue Type: ", "Status: ", "Comments: "]

  /** The field dump after the preamble: the fixed text around its six `%s`
      fields, one `  Label: %s` line per field. */
  const Chunks: seq<string> := [
    "  Title: ",
    "\n  Description: ",
    "\n  Attachments: ",
    "\n  Issue Type: ",
    "\n  Status: ",
    "\n  Comments: ",
    "\n"]

  /** The format string handed to `String.format`. */
  const Template: string := Preamble + Interleave(Chunks)

  /** The six field values as `String.format` renders them: null strings as
      `null`, the attachment count in decimal, the comments section as is. */
  function FieldValues(title: Nullable, description: Nullable, attachments: nat,
                       issueType: Nullable, status: Nullable, comments: string): (vs: seq<string>)
    ensures |vs| == |Labels| && |vs| + 1 == |Chunks|
  {
    [Show(title), Show(description), Decimal(attachments), Show(issueType), Show(status), comments]
  }

  /** `promptTemplate`: the preamble, then the field dump with each value
      substituted verbatim. */
  function PromptTemplate(title: Nullable, description: Nullable, attachments: nat,
                          issueType: Nullable, status: Nullable, comments: string): string
  {
    Preamble + Weave(Chunks, FieldValues(title, description, attachments, issueType, status, comments))
  }

  /** `generatePrompt`: the prompt for an issue, or `None` when rendering the
      comments throws. */
  function GeneratePrompt(issue: Issue, lineSeparator: string): Option<string> {
    match RenderComments(issue.comments, lineSeparator)
    case None => None
    case Some(comments) =>
      Some(PromptTemplate(issue.summary, issue.description, issue.attachmentCount,
                          issue.issueType, issue.status, comments))
  }

  /** Each fixed chunk but the last ends with the label of the field that
      follows it. */
  lemma ChunksEndWithLabels()
    ensures forall k :: 0 <= k < |Labels| ==> EndsWith(Chunks[k], Labels[k])
  {
    assert EndsWith(Chunks[0], Labels[0]);
    assert EndsWith(Chunks[1], Labels[1]);
    assert EndsWith(Chunks[2], Labels[2]);
    assert EndsWith(Chunks[3], Labels[3]);
    assert EndsWith(Chunks[4], Labels[4]);
    assert EndsWith(Chunks[5], Labels[5]);
  }

  /** Between two fields sit a line break, two spaces and the next label. */
  lemma ChunkLengths()
    ensures forall k :: 1 <= k < |Labels| ==> |Chunks[k]| == 3 + |Labels[k]|
  {
  }

  /** The field dump's fixed text holds no percent sign. */
  lemma ChunksPlain()
    ensures forall k :: 0 <= k < |Chunks| ==> PercentFree(Chunks[k])
  {
    assert PercentFree(Chunks[0]);
    assert PercentFree(Chunks[1]);
    assert PercentFree(Chunks[2]);
    assert PercentFree(Chunks[3]);
    assert PercentFree(Chunks[4]);
    assert PercentFree(Chunks[5]);
    assert PercentFree(Chunks[6]);
  }

  /** The instruction text holds no percent sign either: the pieces are
      checked a pair at a time by the `PiecesPlain` lemmas, and
      `JoinedPlain` carries the fact to their concatenation. */
  lemma PreamblePlain()
    ensures PercentFree(Preamble)
  {
    PiecesPlain0();
    PiecesPlain2();
    PiecesPlain4();
    PiecesPlain6();
    PiecesPlain8();
    PiecesPlain10();
    PiecesPlain12();
    PiecesPlain14();
    PiecesPlain16();
    PiecesPlain18();
    PiecesPlain20();
    PiecesPlain22();
    PiecesPlain24();
    PiecesPlain26();
    PiecesPlain28();
    PiecesPlain30();
    PiecesPlain32();
    PiecesPlain34();
    PiecesPlain36();
    PiecesPlain38();
    JoinedPlain(PreamblePieces, 0);
  }

  lemma PiecesPlain0()
    ensures forall k :: 0 <= k < 2 ==> PercentFree(PreamblePieces[k])
  {
    assert PercentFree(PreamblePieces[0]);
    assert PercentFree(PreamblePieces[1]);
  }

  lemma PiecesPlain2()
    ensures forall k :: 2 <= k < 4 ==> PercentFree(PreamblePieces[k])
  {
    assert PercentFree(PreamblePieces[2]);
    assert PercentFree(PreamblePieces[3]);
  }

  lemma PiecesPlain4()
    ensures forall k :: 4 <= k < 6 ==> PercentFree(PreamblePieces[k])
  {
    assert PercentFree(PreamblePieces[4]);
    assert PercentFree(PreamblePieces[5]);
  }

  lemma PiecesPlain6()
    ensures forall k :: 6 <= k < 8 ==> PercentFree(PreamblePieces[k])
  {
    assert PercentFree(PreamblePieces[6]);
    assert PercentFree(PreamblePieces[7]);
  }

  lemma PiecesPlain8()
    ensures forall k :: 8 <= k < 10 ==> PercentFree(PreamblePieces[k])
  {
    assert PercentFree(PreamblePieces[8]);
    assert PercentFree(PreamblePieces[9]);
  }

  lemma PiecesPlain10()
    ensures forall k :: 10 <= k < 12 ==> PercentFree(PreamblePieces[k])
  {
    assert PercentFree(PreamblePieces[10]);
    assert PercentFree(PreamblePieces[11]);
  }

  lemma PiecesPlain12()
    ensures forall k :: 12 <= k < 14 ==> PercentFree(PreamblePieces[k])
  {
    assert PercentFree(PreamblePieces[12]);
    assert PercentFree(PreamblePieces[13]);
  }

  lemma PiecesPlain14()
    ensures forall k :: 14 <= k < 16 ==> PercentFree(PreamblePieces[k])
  {
    assert PercentFree(PreamblePieces[14]);
    assert PercentFree(PreamblePieces[15]);
  }

  lemma PiecesPlain16()
    ensures forall k :: 16 <= k < 18 ==> PercentFree(PreamblePieces[k])
  {
    assert PercentFree(PreamblePieces[16]);
    assert PercentFree(PreamblePieces[17]);
  }

  lemma PiecesPlain18()
    ensures forall k :: 18 <= k < 20 ==> PercentFree(PreamblePieces[k])
  {
    assert PercentFree(PreamblePieces[18]);
    assert PercentFree(PreamblePieces[19]);
  }

  lemma PiecesPlain20()
    ensures forall k :: 20 <= k < 22 ==> PercentFree(PreamblePieces[k])
  {
    assert PercentFree(PreamblePieces[20]);
    assert PercentFree(PreamblePieces[21]);
  }

  lemma PiecesPlain22()
    ensures forall k :: 22 <= k < 24 ==> PercentFree(PreamblePieces[k])
  {
    assert PercentFree(PreamblePieces[22]);
    assert PercentFree(PreamblePieces[23]);
  }

  lemma PiecesPlain24()
    ensures forall k :: 24 <= k < 26 ==> PercentFree(PreamblePieces[k])
  {
    assert PercentFree(PreamblePieces[24]);
    assert PercentFree(PreamblePieces[25]);
  }

  lemma PiecesPlain26()
    ensures forall k :: 26 <= k < 28 ==> PercentFree(PreamblePieces[k])
  {
    assert PercentFree(PreamblePieces[26]);
    assert PercentFree(PreamblePieces[27]);
  }

  lemma PiecesPlain28()
    ensures forall k :: 28 <= k < 30 ==> PercentFree(PreamblePieces[k])
  {
    assert PercentFree(PreamblePieces[28]);
    assert PercentFree(PreamblePieces[29]);
  }

  lemma PiecesPlain30()
    ensures forall k :: 30 <= k < 32 ==> PercentFree(PreamblePieces[k])
  {
    assert PercentFree(PreamblePieces[30]);
    assert PercentFree(PreamblePieces[31]);
  }

  lemma PiecesPlain32()
    ensures forall k :: 32 <= k < 34 ==> PercentFree(PreamblePieces[k])
  {
    assert PercentFree(PreamblePieces[32]);
    assert PercentFree(PreamblePieces[33]);
  }

  lemma PiecesPlain34()
    ensures forall k :: 34 <= k < 36 ==> PercentFree(PreamblePieces[k])
  {
    assert PercentFree(PreamblePieces[34]);
    assert PercentFree(PreamblePieces[35]);
  }

  lemma PiecesPlain36()
    ensures forall k :: 36 <= k < 38 ==> PercentFree(PreamblePieces[k])
  {
    assert PercentFree(PreamblePieces[36]);
    assert PercentFree(PreamblePieces[37]);
  }

  lemma PiecesPlain38()
    ensures forall k :: 38 <= k < 39 ==> PercentFree(PreamblePieces[k])
  {
    assert PercentFree(PreamblePieces[38]);
  }

  /** `promptTemplate` is `String.format` of the template: the six values
      land in the six `%s` slots in order, each copied verbatim whatever it
      contains, and the call never throws. */
  lemma PromptIsFormatted(title: Nullable, description: Nullable, attachments: nat,
                          issueType: Nullable, status: Nullable, comments: string)
    ensures Format(Template, FieldValues(title, description, attachments, issueType, status, comments))
         == Text(PromptTemplate(title, description, attachments, issueType, status, comments))
  {
    var vs := FieldValues(title, description, attachments, issueType, status, comments);
    PreamblePlain();
    ChunksPlain();
    FormatPlain(Preamble, Interleave(Chunks), vs);
    FormatFields(Chunks, vs);
  }

  /** The layout of the prompt: it opens with the preamble; in the field dump
      after it, field `k`'s label ends where its value starts, the value sits
      there verbatim, and the next label follows after the value and a line
      break, so the labels appear in their fixed order each directly followed
      by its own value. */
  lemma PromptLayout(title: Nullable, description: Nullable, attachments: nat,
                     issueType: Nullable, status: Nullable, comments: string, k: nat)
    requires k < |Labels|
    ensures var vs := FieldValues(title, description, attachments, issueType, status, comments);
            var prompt := PromptTemplate(title, description, attachments, issueType, status, comments);
            && |Preamble| <= |prompt| && prompt[..|Preamble|] == Preamble
            && Slot(prompt[|Preamble|..], Chunks, vs, k, Labels[k])
            && (k + 1 < |Labels| ==> |Chunks[k + 1]| == 3 + |Labels[k + 1]|)
  {
    var vs := FieldValues(title, description, attachments, issueType, status, comments);
    var dump := Weave(Chunks, vs);
    assert (Preamble + dump)[|Preamble|..] == dump;
    assert EndsWith(Chunks[k], Labels[k]) by { ChunksEndWithLabels(); }
    ChunkLengths();
    WeaveLayout(Chunks, vs, k, Labels[k]);
  }

  /** A prompt is produced exactly when every comment has an author, and it is
      then the template filled with the issue's fields and its rendered
      comments; with no comments the comments section is empty. */
  lemma GeneratePromptDefined(issue: Issue, lineSeparator: string)
    ensures GeneratePrompt(issue, lineSeparator).Some? <==> HasAuthors(issue.comments)
    ensures |issue.comments| == 0 ==>
      GeneratePrompt(issue, lineSeparator) == Some(PromptTemplate(issue.summary, issue.description,
        issue.attachmentCount, issue.issueType, issue.status, ""))
  {
    RenderCommentsDefined(issue.comments, lineSeparator);
  }

  /** An issue with two comments: the comments section is both comment
      lines, in the tracker's order. */
  lemma TwoCommentPrompt(issue: Issue, c1: Comment, c2: Comment, lineSeparator: string)
    requires issue.comments == [c1, c2] && c1.author.Some? && c2.author.Some?
    ensures GeneratePrompt(issue, lineSeparator)
         == Some(PromptTemplate(issue.summary, issue.description, issue.attachmentCount, issue.issueType, issue.status,
                                CommentLine(c1, lineSeparator).value + CommentLine(c2, lineSeparator).value))
  {
    RenderCommentsSmall(c1, lineSeparator);
    RenderCommentsSmall(c2, lineSeparator);
    RenderCommentsAppend([c1], [c2], lineSeparator);
    assert [c1] + [c2] == [c1, c2];
  }

  /** With an empty thread the prompt ends with the bare `Comments: ` label
      and the template's final line break. */
  lemma EmptyCommentsSection(title: Nullable, description: Nullable, attachments: nat,
                             issueType: Nullable, status: Nullable)
    ensures EndsWith(PromptTemplate(title, description, attachments, issueType, status, ""), "\n  Comments: \n")
  {
    var vs := FieldValues(title, description, attachments, issueType, status, "");
    WeaveEmptyLast(Chunks, vs);
    assert Chunks[5] + Chunks[6] == "\n  Comments: \n";
    EndsWithPrefix(Preamble, Weave(Chunks, vs), "\n  Comments: \n");
  }
}
