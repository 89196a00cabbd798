/**
 * The chat core: intent detection over the slash-command catalogue,
 * the canned response for each intent, and the submit handler that
 * appends the user's message at once and the assistant's reply in a
 * deferred step.
 */
module ChatLogic {
  import opened Types
  import opened Text

  /** A catalogue entry: an intent id, its slash command and an optional description. */
  datatype SuggestionItem = SuggestionItem(id: string, command: string, description: Option<string>)

  /** A message of the chat log; `cards` is present only on a projects reply. */
  datatype ChatMessage = ChatMessage(role: Role, content: string, cards: Option<seq<ProjectCard>>)

  /** What `generateResponse` returns. */
  datatype Response = Response(content: string, cards: Option<seq<ProjectCard>>)

  /** The catalogue the chat page hands to the submit handler. */
  const SampleSuggestions: seq<SuggestionItem> := [
    SuggestionItem("about", "/about", Some("Learn about my background and story")),
    SuggestionItem("experience", "/experience", Some("View my work experience and career journey")),
    SuggestionItem("projects", "/projects", Some("Explore my latest projects and case studies")),
    SuggestionItem("skills", "/skills", Some("Check out my technical skills and expertise")),
    SuggestionItem("contact", "/contact", Some("Get my contact information")),
    SuggestionItem("resume", "/resume", Some("Download my resume"))
  ]

  /** The intents the keyword cascade and the fallback can produce. */
  const CascadeIntents: set<string> := {"projects", "experience", "skills", "about", "contact", "fallback"}

  /** The intents `generateResponse` has a dedicated answer for. */
  const AnsweredIntents: set<string> := {"about", "projects", "skills", "experience", "contact"}

  // ---------------------------------------------------------------------
  // Intent detection

  /** An entry matches the normalised input when the input equals its command or contains the command minus its first character. */
  predicate EntryMatches(normalized: string, s: SuggestionItem)
  {
    normalized == s.command || Contains(normalized, SliceFromOne(s.command))
  }

  /** `suggestions.find(...)`, as the index of the first matching entry at or after `from`. */
  function FirstMatch(cat: seq<SuggestionItem>, normalized: string, from: nat): (r: Option<nat>)
    requires from <= |cat|
    ensures r.Some? ==> from <= r.value < |cat| && EntryMatches(normalized, cat[r.value])
    ensures r.Some? ==> forall j :: from <= j < r.value ==> !EntryMatches(normalized, cat[j])
    ensures r.None? ==> forall j :: from <= j < |cat| ==> !EntryMatches(normalized, cat[j])
    decreases |cat| - from
  {
    if from == |cat| then None
    else if EntryMatches(normalized, cat[from]) then Some(from)
    else FirstMatch(cat, normalized, from + 1)
  }

  /** The fixed keyword cascade tried when no catalogue entry matches. */
  function KeywordIntent(normalized: string): (r: string)
    ensures r in CascadeIntents
  {
    if Contains(normalized, "project") then "projects"
    else if Contains(normalized, "experience") || Contains(normalized, "work") then "experience"
    else if Contains(normalized, "skill") || Contains(normalized, "tech") then "skills"
    else if Contains(normalized, "about") || Contains(normalized, "background") then "about"
    else if Contains(normalized, "contact") || Contains(normalized, "email") then "contact"
    else "fallback"
  }

  /** The input as `detectIntent` compares it: lower-cased, then trimmed. */
  function Normalize(input: string): string
  {
    Trim(Lower(input))
  }

  /** The intent of an already normalised input: the first matching catalogue id, else the keyword cascade. */
  function ResolveNormalized(normalized: string, cat: seq<SuggestionItem>): (r: string)
    ensures r in CascadeIntents || exists k :: 0 <= k < |cat| && r == cat[k].id
  {
    match FirstMatch(cat, normalized, 0)
    case Some(k) => cat[k].id
    case None => KeywordIntent(normalized)
  }

  /** `detectIntent`: normalise, then resolve. */
  function DetectIntent(input: string, cat: seq<SuggestionItem>): string
  {
    ResolveNormalized(Normalize(input), cat)
  }

  /** The first catalogue entry that matches decides the intent, whatever later entries or keywords say. */
  lemma DetectIntentFirstMatchWins(input: string, cat: seq<SuggestionItem>, k: nat)
    requires k < |cat| && EntryMatches(Normalize(input), cat[k])
    requires forall j :: 0 <= j < k ==> !EntryMatches(Normalize(input), cat[j])
    ensures DetectIntent(input, cat) == cat[k].id
  {
  }

  /** With no matching catalogue entry the keyword cascade decides. */
  lemma DetectIntentNoMatch(input: string, cat: seq<SuggestionItem>)
    requires forall j :: 0 <= j < |cat| ==> !EntryMatches(Normalize(input), cat[j])
    ensures DetectIntent(input, cat) == KeywordIntent(Normalize(input))
  {
  }

  /** The equality test of the catalogue match adds nothing: equality implies containment of the command minus its first character. */
  lemma ExactCommandIsContained(normalized: string, s: SuggestionItem)
    ensures EntryMatches(normalized, s) <==> Contains(normalized, SliceFromOne(s.command))
  {
    if normalized == s.command {
      ContainsSliceFromOne(s.command);
    }
  }

  /** Inputs differing only in letter case resolve identically. */
  lemma DetectIntentIgnoresCase(input: string, cat: seq<SuggestionItem>)
    ensures DetectIntent(Lower(input), cat) == DetectIntent(input, cat)
  {
    LowerIdempotent(input);
  }

  /** Inputs differing only in surrounding whitespace resolve identically. */
  lemma DetectIntentIgnoresSurroundingWhitespace(a: string, input: string, b: string, cat: seq<SuggestionItem>)
    requires IsBlank(a) && IsBlank(b)
    ensures DetectIntent(a + input + b, cat) == DetectIntent(input, cat)
  {
    LowerAppend(a + input, b);
    LowerAppend(a, input);
    LowerBlank(a);
    LowerBlank(b);
    TrimIgnoresSurroundingBlanks(a, Lower(input), b);
  }

  /** Every command of the chat page's catalogue is already in normalised form. */
  lemma CommandIsNormalized(k: nat)
    requires k < |SampleSuggestions|
    ensures Normalize(SampleSuggestions[k].command) == SampleSuggestions[k].command
  {
    var c := SampleSuggestions[k].command;
    LowerNoCapitals(c);
    TrimUnpadded(c);
  }

  /** The commands of the chat page's catalogue, in order. */
  const Commands: seq<string> := ["/about", "/experience", "/projects", "/skills", "/contact", "/resume"]

  lemma CommandAt(k: nat)
    requires k < |SampleSuggestions|
    ensures |Commands| == |SampleSuggestions| && SampleSuggestions[k].command == Commands[k]
  {
  }

  /** For each command but the last, a letter after its slash that no later command has. */
  const DistinctiveLetters: seq<char> := ['b', 'x', 'p', 'k', 'c']

  lemma DistinctiveLetterOccurs(j: nat)
    requires j < |DistinctiveLetters|
    ensures DistinctiveLetters[j] in SliceFromOne(Commands[j])
  {
    if j == 0 || j == 1 || j == 3 {
      assert SliceFromOne(Commands[j])[1] == DistinctiveLetters[j];
    } else {
      assert SliceFromOne(Commands[j])[0] == DistinctiveLetters[j];
    }
  }

  /** No command has the distinctive letter of an earlier one. */
  lemma LaterCommandLacksLetter(j: nat, k: nat)
    requires j < k < |Commands|
    ensures DistinctiveLetters[j] !in Commands[k]
  {
  }

  /** A command of the chat page's catalogue is not matched by any entry listed before it. */
  lemma EarlierEntryMisses(j: nat, k: nat)
    requires j < k < |SampleSuggestions|
    ensures !EntryMatches(SampleSuggestions[k].command, SampleSuggestions[j])
  {
    var c := SampleSuggestions[k].command;
    ExactCommandIsContained(c, SampleSuggestions[j]);
    CommandAt(j);
    CommandAt(k);
    DistinctiveLetterOccurs(j);
    LaterCommandLacksLetter(j, k);
    NotContainsChar(c, SliceFromOne(SampleSuggestions[j].command), DistinctiveLetters[j]);
  }

  /** On the chat page, typing one of the catalogue's commands resolves to that entry's intent. */
  lemma SlashCommandResolves(k: nat)
    requires k < |SampleSuggestions|
    ensures DetectIntent(SampleSuggestions[k].command, SampleSuggestions) == SampleSuggestions[k].id
  {
    CommandIsNormalized(k);
    forall j | 0 <= j < k
      ensures !EntryMatches(Normalize(SampleSuggestions[k].command), SampleSuggestions[j])
    {
      EarlierEntryMisses(j, k);
    }
    DetectIntentFirstMatchWins(SampleSuggestions[k].command, SampleSuggestions, k);
  }

  // ---------------------------------------------------------------------
  // Responses

  const AboutText: string :=
    "Hi! I'm Harpreet Singh, a passionate software developer with expertise in building scalable backend systems and web3 products.\n"
    + "\n"
    + "I love creating efficient, user-focused solutions and have experience with React, Node.js, and blockchain technologies.\n"
    + "\n"
    + "When I'm not coding I explore new tech, contribute to OSS, or share knowledge."
  const ProjectsText: string :=
    "Here are some featured projects:"
  const SkillsText: string :=
    "Skills:\n"
    + "\n"
    + "Frontend: React, Next.js, TypeScript, Tailwind  \n"
    + "Backend: Node.js, Express, Python, Django, GraphQL  \n"
    + "Infra & DB: PostgreSQL, MongoDB, Redis, Docker, AWS  \n"
    + "Testing & Tooling: Jest, CI/CD, Performance"
  const ExperienceText: string :=
    "Experience:\n"
    + "\n"
    + "Senior Software Developer \U{2013} TechCorp (2022\U{2013}Now)\n"
    + "\U{2022} Microservices for 100k+ users\n"
    + "\U{2022} 40% perf improvement\n"
    + "\n"
    + "Full Stack Developer \U{2013} StartupXYZ (2021\U{2013}2022)\n"
    + "\U{2022} React/Node delivery\n"
    + "\U{2022} CI/CD time -60%"
  const ContactText: string :=
    "Contact:\n"
    + "\n"
    + "Email: harpreet@example.com\n"
    + "LinkedIn: linkedin.com/in/harpreet-singh\n"
    + "GitHub: github.com/harpreetsingh"
  const HelpText: string :=
    "Try asking:\n"
    + "\n"
    + "/about  /projects  /skills  /experience  /contact\n"
    + "\n"
    + "Natural questions also work."

  /** The two cards of the projects answer. */
  const FeaturedProjects: seq<ProjectCard> := [
    ProjectCard("E-commerce Platform",
      "Full\U{2011}stack commerce app (React, Node.js, MongoDB, Stripe)",
      ["React", "Node.js", "MongoDB", "Stripe"],
      Links(Some("#"), Some("#")), None),
    ProjectCard("Task Management App",
      "Real-time collaboration (Next.js, Socket.io, PostgreSQL, Redis)",
      ["Next.js", "Socket.io", "PostgreSQL", "Redis"],
      Links(Some("#"), Some("#")), None)
  ]

  /** `generateResponse`: canned text per intent, with project cards for `projects` only. */
  function GenerateResponse(intent: string): (r: Response)
    ensures r.cards.Some? <==> intent == "projects"
    ensures r.cards.Some? ==> |r.cards.value| == 2 && r.cards.value == FeaturedProjects
    ensures r.content == HelpText <==> intent !in AnsweredIntents
  {
    if intent == "about" then Response(AboutText, None)
    else if intent == "projects" then Response(ProjectsText, Some(FeaturedProjects))
    else if intent == "skills" then Response(SkillsText, None)
    else if intent == "experience" then Response(ExperienceText, None)
    else if intent == "contact" then Response(ContactText, None)
    else Response(HelpText, None)
  }

  /** The assistant message the deferred step appends for `query`. */
  function Reply(query: string, cat: seq<SuggestionItem>): (m: ChatMessage)
    ensures m.role == Assistant
  {
    var response := GenerateResponse(DetectIntent(query, cat));
    ChatMessage(Assistant, response.content, response.cards)
  }

  /** Of the catalogue's intents only `resume` lacks a dedicated answer, and only `projects` is the projects intent. */
  lemma CatalogueIntents(k: nat)
    requires k < |SampleSuggestions|
    ensures SampleSuggestions[k].id in AnsweredIntents <==> k != 5
    ensures SampleSuggestions[k].id == "projects" <==> k == 2
  {
    var ids := ["about", "experience", "projects", "skills", "contact", "resume"];
    assert SampleSuggestions[k].id == ids[k];
    assert "resume" !in AnsweredIntents;
  }

  /** On the chat page `/projects`, and no other command of the catalogue, is answered with the two featured cards. */
  lemma SlashCommandCards(k: nat)
    requires k < |SampleSuggestions|
    ensures Reply(SampleSuggestions[k].command, SampleSuggestions).cards == Some(FeaturedProjects) <==> k == 2
  {
    SlashCommandResolves(k);
    CatalogueIntents(k);
  }

  /**
   * On the chat page `/resume`, which has no answer of its own, gets the help text;
   * every other command of the catalogue gets its dedicated answer.
   */
  lemma SlashCommandHelp(k: nat)
    requires k < |SampleSuggestions|
    ensures Reply(SampleSuggestions[k].command, SampleSuggestions).content == HelpText <==> k == 5
  {
    SlashCommandResolves(k);
    CatalogueIntents(k);
  }

  // ---------------------------------------------------------------------
  // The submit handler

  /** The contents of the user messages of `log`, in order. */
  ghost function UserQueries(log: seq<ChatMessage>): seq<string>
  {
    if log == [] then []
    else UserQueries(log[..|log| - 1]) + (if log[|log| - 1].role == User then [log[|log| - 1].content] else [])
  }

  /** The assistant messages of `log`, in order. */
  ghost function Replies(log: seq<ChatMessage>): seq<ChatMessage>
  {
    if log == [] then []
    else Replies(log[..|log| - 1]) + (if log[|log| - 1].role == Assistant then [log[|log| - 1]] else [])
  }

  /** Appending a message extends exactly one of the two projections. */
  lemma LogAppend(log: seq<ChatMessage>, m: ChatMessage)
    ensures UserQueries(log + [m]) == UserQueries(log) + (if m.role == User then [m.content] else [])
    ensures Replies(log + [m]) == Replies(log) + (if m.role == Assistant then [m] else [])
  {
    assert (log + [m])[..|log + [m]| - 1] == log;
  }

  /** The replies to `queries`, in order. */
  function RepliesTo(queries: seq<string>, cat: seq<SuggestionItem>): (rs: seq<ChatMessage>)
    ensures |rs| == |queries|
  {
    if queries == [] then []
    else RepliesTo(queries[..|queries| - 1], cat) + [Reply(queries[|queries| - 1], cat)]
  }

  /** The i-th reply is the reply to the i-th query. */
  lemma {:induction false} RepliesToAt(queries: seq<string>, cat: seq<SuggestionItem>, i: nat)
    requires i < |queries|
    ensures RepliesTo(queries, cat)[i] == Reply(queries[i], cat)
    decreases |queries|
  {
    if i < |queries| - 1 {
      RepliesToAt(queries[..|queries| - 1], cat, i);
    }
  }

  /**
   * The replies answer the first user queries one for one, the user queries not
   * yet answered are exactly the scheduled ones, in order, and no user query is blank.
   */
  ghost predicate LogInvariant(us: seq<string>, rs: seq<ChatMessage>, scheduled: seq<string>, cat: seq<SuggestionItem>)
  {
    && |rs| + |scheduled| == |us|
    && scheduled == us[|rs|..]
    && rs == RepliesTo(us[..|rs|], cat)
    && (forall i :: 0 <= i < |us| ==> !IsBlank(us[i]))
  }

  /** Submitting a non-blank query keeps the log invariant. */
  lemma SubmitKeepsLogInvariant(us: seq<string>, rs: seq<ChatMessage>, scheduled: seq<string>, cat: seq<SuggestionItem>, query: string)
    requires LogInvariant(us, rs, scheduled, cat) && !IsBlank(query)
    ensures LogInvariant(us + [query], rs, scheduled + [query], cat)
  {
    assert (us + [query])[|rs|..] == us[|rs|..] + [query];
    assert (us + [query])[..|rs|] == us[..|rs|];
  }

  /** Running the oldest deferred step keeps the log invariant. */
  lemma CompleteKeepsLogInvariant(us: seq<string>, rs: seq<ChatMessage>, scheduled: seq<string>, cat: seq<SuggestionItem>)
    requires LogInvariant(us, rs, scheduled, cat) && scheduled != []
    ensures LogInvariant(us, rs + [Reply(scheduled[0], cat)], scheduled[1..], cat)
  {
    assert scheduled[0] == us[|rs|];
    assert us[|rs| + 1..] == us[|rs|..][1..];
    assert us[..|rs| + 1][..|rs|] == us[..|rs|];
  }

  /**
   * The state the handler returned by `createHandleSubmit` drives through its setters:
   * the message log, the search box value, the suggestions flag, the typing flag and,
   * when the caller supplied `setActiveTab`, the active tab. `scheduled` holds the
   * queries whose deferred reply has been scheduled and has not run yet; every timer
   * has the same delay, so they fire in the order they were scheduled.
   */
  class ChatSession {
    const suggestions: seq<SuggestionItem>
    const setsTab: bool
    var messages: seq<ChatMessage>
    var searchValue: string
    var showSuggestions: bool
    var isTyping: bool
    var activeTab: string
    var scheduled: seq<string>

    /** The log invariant holds and the typing flag is only up while a reply is still scheduled. */
    ghost predicate Valid()
      reads this
    {
      && LogInvariant(UserQueries(messages), Replies(messages), scheduled, suggestions)
      && (isTyping ==> scheduled != [])
    }

    constructor (suggestions: seq<SuggestionItem>, setsTab: bool, activeTab: string)
      ensures Valid()
      ensures this.suggestions == suggestions && this.setsTab == setsTab && this.activeTab == activeTab
      ensures messages == [] && searchValue == "" && !showSuggestions && !isTyping && scheduled == []
    {
      this.suggestions := suggestions;
      this.setsTab := setsTab;
      this.activeTab := activeTab;
      messages := [];
      searchValue := "";
      showSuggestions := false;
      isTyping := false;
      scheduled := [];
    }

    /** The handler itself: a blank query changes nothing; otherwise the user message goes in at once and the reply is scheduled. */
    method Submit(query: string)
      requires Valid()
      modifies this
      ensures Valid()
      ensures IsBlank(query) ==> unchanged(this)
      ensures !IsBlank(query) ==>
        && messages == old(messages) + [ChatMessage(User, query, None)]
        && searchValue == "" && !showSuggestions && isTyping
        && scheduled == old(scheduled) + [query]
        && activeTab == (if setsTab then "chat" else old(activeTab))
    {
      if TrimsToEmpty(query) {
        return;
      }
      activeTab := if setsTab then "chat" else activeTab;
      var entry := ChatMessage(User, query, None);
      LogAppend(messages, entry);
      SubmitKeepsLogInvariant(UserQueries(messages), Replies(messages), scheduled, suggestions, query);
      assert UserQueries(messages + [entry]) == UserQueries(messages) + [query];
      assert Replies(messages + [entry]) == Replies(messages);
      messages := messages + [entry];
      searchValue := "";
      showSuggestions := false;
      isTyping := true;
      scheduled := scheduled + [query];
    }

    /** The deferred step of the oldest scheduled query: its reply goes in and typing stops. */
    method Complete()
      requires Valid() && scheduled != []
      modifies this
      ensures Valid()
      ensures messages == old(messages) + [Reply(old(scheduled)[0], suggestions)]
      ensures !isTyping && scheduled == old(scheduled)[1..]
      ensures searchValue == old(searchValue) && showSuggestions == old(showSuggestions)
      ensures activeTab == old(activeTab)
    {
      var reply := Reply(scheduled[0], suggestions);
      LogAppend(messages, reply);
      CompleteKeepsLogInvariant(UserQueries(messages), Replies(messages), scheduled, suggestions);
      assert UserQueries(messages + [reply]) == UserQueries(messages);
      assert Replies(messages + [reply]) == Replies(messages) + [reply];
      messages := messages + [reply];
      isTyping := false;
      scheduled := scheduled[1..];
    }
  }

  /**
   * One submit on a fresh chat page followed by its deferred step, if any:
   * a blank query leaves the log empty, any other query gives its echo and its reply.
   */
  method Conversation(query: string) returns (log: seq<ChatMessage>, typingAfterSubmit: bool, typingAfterReply: bool)
    ensures IsBlank(query) ==> log == [] && !typingAfterSubmit && !typingAfterReply
    ensures !IsBlank(query) ==> log == [ChatMessage(User, query, None), Reply(query, SampleSuggestions)]
    ensures !IsBlank(query) ==> typingAfterSubmit && !typingAfterReply
  {
    var session := new ChatSession(SampleSuggestions, false, "chat");
    session.Submit(query);
    typingAfterSubmit := session.isTyping;
    if session.scheduled != [] {
      session.Complete();
    }
    log := session.messages;
    typingAfterReply := session.isTyping;
  }
}
