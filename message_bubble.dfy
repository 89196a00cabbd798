/**
 * The rendering decisions of a chat message bubble: who wrote it, whether it
 * is a text response, which text it shows, which header label it carries and
 * which body the payload selects.
 */
module MessageBubble {
  import opened Types

  /** One block of a bubble's body. */
  datatype Body =
    | TextBody(text: string, withIcon: bool)
    | CardsBody(cards: seq<ProjectCard>)
    | TimelineBody(entries: seq<ExperienceItem>)
    | SkillsBody(groups: seq<SkillGroup>)

  /**
   * A rendered bubble: right-aligned for the user, the assistant header's label
   * (with its icon) when there is a header, and the body blocks in order.
   */
  datatype Bubble = Bubble(alignedRight: bool, header: Option<string>, bodies: seq<Body>)

  /** `msg.type === 'user'`. */
  predicate IsUser(m: Message)
  {
    m.role == User
  }

  /** No payload, or a payload of kind `text`. */
  predicate IsTextResponse(m: Message)
  {
    m.payload.None? || m.payload.value.TextPayload?
  }

  /** `msg.content || msg.payload?.text || ''`: the content unless empty, else the payload's text, else empty. */
  function TextContent(m: Message): (t: string)
    ensures m.content != "" ==> t == m.content
    ensures m.content == "" && m.payload.Some? && m.payload.value.TextPayload? ==> t == m.payload.value.text
    ensures t != "" ==> t == m.content || (m.payload.Some? && m.payload.value.TextPayload? && t == m.payload.value.text)
  {
    if m.content != "" then m.content
    else match m.payload
      case Some(TextPayload(text)) => text
      case _ => ""
  }

  /** The response icon: none for the user's messages. */
  function ResponseIcon(m: Message): bool
  {
    !IsUser(m)
  }

  /** The label text: the four conditional parts of the header, concatenated. */
  function HeaderLabel(m: Message): string
  {
    var kind := m.payload;
    (if kind.Some? && kind.value.ProjectsPayload? then "Projects" else "")
    + (if kind.Some? && kind.value.ExperiencePayload? then "Experience" else "")
    + (if kind.Some? && kind.value.SkillsPayload? then "Skills" else "")
    + (if IsTextResponse(m) then "Response" else "")
  }

  /** The assistant header, shown only for assistant messages with a rich payload; it always carries the icon. */
  function Header(m: Message): (h: Option<string>)
    ensures h.Some? <==> !IsUser(m) && !IsTextResponse(m)
    ensures h.Some? ==> ResponseIcon(m)
  {
    if !IsUser(m) && !IsTextResponse(m) then Some(HeaderLabel(m)) else None
  }

  /** The bubble for `m`. */
  function Render(m: Message): (b: Bubble)
    ensures b.alignedRight <==> IsUser(m)
    ensures b.header == Header(m)
    ensures |b.bodies| == 1
    ensures b.bodies[0].TextBody? <==> IsTextResponse(m)
    ensures b.bodies[0].TextBody? ==> b.bodies[0].text == TextContent(m) && (b.bodies[0].withIcon <==> ResponseIcon(m))
  {
    var textPart := if IsTextResponse(m) then [TextBody(TextContent(m), !IsUser(m))] else [];
    var richPart :=
      match m.payload
      case Some(ProjectsPayload(items)) => [CardsBody(seq(|items|, i requires 0 <= i < |items| => items[i]))]
      case Some(ExperiencePayload(entries)) => [TimelineBody(entries)]
      case Some(SkillsPayload(groups)) => [SkillsBody(groups)]
      case _ => [];
    Bubble(IsUser(m), Header(m), textPart + richPart)
  }

  /** The header's label names the payload kind; the `Response` label is never shown. */
  lemma HeaderLabelNamesKind(m: Message)
    requires Header(m).Some?
    ensures m.payload.value.ProjectsPayload? ==> Header(m).value == "Projects"
    ensures m.payload.value.ExperiencePayload? ==> Header(m).value == "Experience"
    ensures m.payload.value.SkillsPayload? ==> Header(m).value == "Skills"
    ensures Header(m).value != "Response"
  {
  }

  /** A rich payload's body shows its content unchanged: one card per project in order, the experience entries, the skill groups. */
  lemma RichBodyShowsPayload(m: Message)
    requires !IsTextResponse(m)
    ensures m.payload.value.ProjectsPayload? ==> Render(m).bodies == [CardsBody(m.payload.value.projects)]
    ensures m.payload.value.ExperiencePayload? ==> Render(m).bodies == [TimelineBody(m.payload.value.entries)]
    ensures m.payload.value.SkillsPayload? ==> Render(m).bodies == [SkillsBody(m.payload.value.groups)]
  {
    if m.payload.value.ProjectsPayload? {
      var items := m.payload.value.projects;
      assert seq(|items|, i requires 0 <= i < |items| => items[i]) == items;
    }
  }
}
