/** The prompts of the document analysis agent: a system prompt with the retrieved
    guidelines in its middle, a user prompt with the document in its middle, and the two
    joined by a blank line. */
module Prompts {
  import opened Common

  // The templates are kept as their lines: the text is the lines joined by newlines.

  /** The lines of `SYSTEM_PROMPT` before its `{guidelines}` field. */
  const SystemHeadLines: seq<string> := [
    "You are a document analysis assistant with strict rules.",
    "",
    "YOUR ROLE:",
    "Analyze documents for completeness and clarity. Identify missing information.",
    "",
    "RULES YOU MUST FOLLOW:",
    "1. NO HALLUCINATION - Only reference information present in the document",
    "2. NO ASSUMPTIONS - If uncertain, say \"unknown\"",
    "3. EVIDENCE REQUIRED - Support every claim with direct quotes or references",
    "4. JSON ONLY - Output must be valid JSON matching the specified schema",
    "5. BE HONEST - Use confidence scores to reflect uncertainty",
    "",
    "OUTPUT FORMAT:",
    "You must return a JSON object with exactly these fields:",
    "- summary: Brief summary (2-3 sentences, 10-500 chars)",
    "- completeness_status: One of [\"complete\", \"partial\", \"unknown\"]",
    "- missing_points: List of missing sections (empty array if complete or unknown)",
    "- evidence: List of direct quotes supporting your analysis (min 1 item)",
    "- confidence: Float between 0.0 and 1.0",
    "",
    "ANALYSIS GUIDELINES:",
    ""
  ]

  /** The lines of `SYSTEM_PROMPT` after its `{guidelines}` field, as `str.format` renders
      them: the template's doubled braces around the example object are written here as
      the single braces they become. */
  const SystemTailLines: seq<string> := [
    "",
    "",
    "IMPORTANT:",
    "- If the document is clearly incomplete, set status to \"partial\" and list what's missing",
    "- If you cannot determine completeness, set status to \"unknown\"",
    "- Always provide evidence from the document itself",
    "- Use lower confidence scores when uncertain",
    "",
    "Example output:",
    "{",
    "  \"summary\": \"This is a technical specification document outlining API requirements.\",",
    "  \"completeness_status\": \"partial\",",
    "  \"missing_points\": [\"Authentication details\", \"Error handling specifications\"],",
    "  \"evidence\": [\"Document states 'API endpoints are defined below'\", \"No mention of security protocols\"],",
    "  \"confidence\": 0.7",
    "}",
    ""
  ]

  const SystemHead: string := Join("\n", SystemHeadLines)
  const SystemTail: string := Join("\n", SystemTailLines)

  /** `USER_PROMPT_TEMPLATE` before and after its `{document_text}` field. */
  const UserHead: string := "DOCUMENT TO ANALYZE:\n\n"
  const UserTail: string := "\n\n---\n\nAnalyze the above document and return JSON only.\n"

  /** `f"{i+1}. {guideline.strip()}"`. */
  function GuidelineItem(i: nat, guideline: string): string
  {
    NatToString(i + 1) + ". " + Strip(guideline)
  }

  /** The numbered guideline lines, in input order. */
  function GuidelineItems(guidelines: seq<string>): (items: seq<string>)
    ensures |items| == |guidelines|
    ensures forall i :: 0 <= i < |guidelines| ==> items[i] == GuidelineItem(i, guidelines[i])
  {
    seq(|guidelines|, i requires 0 <= i < |guidelines| => GuidelineItem(i, guidelines[i]))
  }

  /** `guidelines_text`: the numbered lines joined by single newlines. */
  function GuidelinesText(guidelines: seq<string>): string
  {
    Join("\n", GuidelineItems(guidelines))
  }

  /** A template with one field: the text before it, the value, the text after it. */
  function FillField(head: string, value: string, tail: string): string
  {
    head + value + tail
  }

  /** The filled template is the head, then the value verbatim, then the tail. */
  lemma FillFieldShape(head: string, value: string, tail: string)
    ensures var p := FillField(head, value, tail);
      && |p| == |head| + |value| + |tail|
      && p[..|head|] == head
      && p[|head|..|head| + |value|] == value
      && p[|head| + |value|..] == tail
  {
    var p := head + value + tail;
    assert p[..|head|] == head;
    assert p[|head|..|head| + |value|] == value;
    assert p[|head| + |value|..] == tail;
  }

  /** `build_system_prompt`: `SYSTEM_PROMPT.format(guidelines=...)`. */
  function BuildSystemPrompt(guidelines: seq<string>): string
  {
    FillField(SystemHead, GuidelinesText(guidelines), SystemTail)
  }

  /** `build_user_prompt`: `USER_PROMPT_TEMPLATE.format(document_text=...)`. */
  function BuildUserPrompt(documentText: string): string
  {
    FillField(UserHead, documentText, UserTail)
  }

  /** `build_complete_prompt`: the system prompt, a blank line, the user prompt. */
  function BuildCompletePrompt(documentText: string, guidelines: seq<string>): string
  {
    BuildSystemPrompt(guidelines) + "\n\n" + BuildUserPrompt(documentText)
  }

  /** No guidelines give an empty section. */
  lemma NoGuidelinesNoSection()
    ensures GuidelinesText([]) == ""
  {
  }

  /** Line i of the section is `"{i+1}. "` and the stripped guideline i, and it stands at
      its offset in the section; consecutive lines are separated by one newline. */
  lemma GuidelineLine(guidelines: seq<string>, i: nat)
    requires i < |guidelines|
    ensures var items := GuidelineItems(guidelines);
      var o := JoinOffset("\n", items, i);
      var line := NatToString(i + 1) + ". " + Strip(guidelines[i]);
      && o + |line| <= |GuidelinesText(guidelines)|
      && GuidelinesText(guidelines)[o..o + |line|] == line
      && (i + 1 < |guidelines| ==>
            && o + |line| < |GuidelinesText(guidelines)|
            && GuidelinesText(guidelines)[o + |line|] == '\n'
            && JoinOffset("\n", items, i + 1) == o + |line| + 1)
  {
    var items := GuidelineItems(guidelines);
    assert items[i] == NatToString(i + 1) + ". " + Strip(guidelines[i]);
    JoinContains("\n", items, i);
    if i + 1 < |guidelines| {
      JoinSeparatorAt("\n", items, i);
      var text, e := Join("\n", items), JoinOffset("\n", items, i) + |items[i]|;
      assert text[e..e + 1] == "\n";
      assert text[e] == text[e..e + 1][0];
    }
  }

  /** The number in front of line i reads back as i + 1. */
  lemma GuidelineNumber(guidelines: seq<string>, i: nat)
    requires i < |guidelines|
    ensures var line := GuidelineItems(guidelines)[i];
      var n := NatToString(i + 1);
      && line[..|n|] == n && AllDigits(n) && ParseDecimal(n) == i + 1
      && line[|n|..|n| + 2] == ". "
  {
    ParseNatToString(i + 1);
    var n := NatToString(i + 1);
    var line := GuidelineItems(guidelines)[i];
    assert line == n + (". " + Strip(guidelines[i]));
  }

  /** The system prompt is its fixed head, the guideline section and its fixed tail. */
  lemma SystemPromptShape(guidelines: seq<string>)
    ensures var p := BuildSystemPrompt(guidelines);
      && |p| == |SystemHead| + |GuidelinesText(guidelines)| + |SystemTail|
      && p[..|SystemHead|] == SystemHead
      && p[|SystemHead|..|p| - |SystemTail|] == GuidelinesText(guidelines)
      && p[|p| - |SystemTail|..] == SystemTail
  {
    FillFieldShape(SystemHead, GuidelinesText(guidelines), SystemTail);
  }

  /** The user prompt carries the document verbatim between its fixed head and tail. */
  lemma UserPromptShape(documentText: string)
    ensures var p := BuildUserPrompt(documentText);
      && |p| == |UserHead| + |documentText| + |UserTail|
      && p[..|UserHead|] == UserHead
      && p[|UserHead|..|UserHead| + |documentText|] == documentText
      && p[|UserHead| + |documentText|..] == UserTail
  {
    FillFieldShape(UserHead, documentText, UserTail);
  }

  /** The complete prompt starts with the system prompt, which depends only on the
      guidelines, then a blank line; the user prompt follows. */
  lemma CompletePromptShape(documentText: string, guidelines: seq<string>)
    ensures var p := BuildCompletePrompt(documentText, guidelines);
      var sys := BuildSystemPrompt(guidelines);
      && p[..|sys|] == sys
      && p[|sys|..|sys| + 2] == "\n\n"
      && p[|sys| + 2..] == BuildUserPrompt(documentText)
  {
    FillFieldShape(BuildSystemPrompt(guidelines), "\n\n", BuildUserPrompt(documentText));
  }

  /** Two documents analysed with the same guidelines get the same system part. */
  lemma SystemPartIgnoresDocument(d1: string, d2: string, guidelines: seq<string>)
    ensures var n := |BuildSystemPrompt(guidelines)| + 2;
      && n <= |BuildCompletePrompt(d1, guidelines)| && n <= |BuildCompletePrompt(d2, guidelines)|
      && BuildCompletePrompt(d1, guidelines)[..n] == BuildCompletePrompt(d2, guidelines)[..n]
  {
    SharedPrefix(BuildSystemPrompt(guidelines) + "\n\n", BuildUserPrompt(d1), BuildUserPrompt(d2));
  }

  lemma SharedPrefix(a: string, b1: string, b2: string)
    ensures (a + b1)[..|a|] == (a + b2)[..|a|]
  {
    assert (a + b1)[..|a|] == a;
    assert (a + b2)[..|a|] == a;
  }
}
