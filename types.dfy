/**
 * The records shared by the chat logic and the message renderer:
 * project cards, experience entries and the assistant payload sum type.
 * Message ids and timestamps are opaque to every decision modelled here
 * and are not represented.
 */
module Types {

  datatype Option<T> = None | Some(value: T)

  /** The optional outbound links of a project card. */
  datatype Links = Links(github: Option<string>, demo: Option<string>)

  datatype ProjectCard = ProjectCard(
    title: string,
    description: string,
    tech: seq<string>,
    links: Links,
    image: Option<string>)

  datatype ExperienceItem = ExperienceItem(
    role: string,
    company: string,
    start: string,
    end: string,
    bullets: seq<string>)

  /** One entry of the skills record: a group name and its skills, in entry order. */
  datatype SkillGroup = SkillGroup(name: string, skills: seq<string>)

  /** The rich payload an assistant message may carry, one variant per `kind`. */
  datatype AssistantPayload =
    | TextPayload(text: string)
    | ProjectsPayload(projects: seq<ProjectCard>)
    | ExperiencePayload(entries: seq<ExperienceItem>)
    | SkillsPayload(groups: seq<SkillGroup>)

  /** Who wrote a message: the `type` field, `'user' | 'assistant'`. */
  datatype Role = User | Assistant

  /** A conversation message as the renderer receives it. */
  datatype Message = Message(role: Role, content: string, payload: Option<AssistantPayload>)
}
