/** The fixed resume profile and the keyword router that answers questions
    about it without calling the text generator. */
module Resume {
  import opened Wrappers
  import opened Text

  datatype Profile = Profile(
    name: string,
    skills: seq<string>,
    experience: string,
    projects: seq<string>,
    email: string,
    phone: string)

  const ResumeData: Profile := Profile(
    "Cletus",
    ["Python", "Flask", "Machine Learning", "Langchain", "Excel"],
    "3+ years of experience in data science and full-stack development.",
    ["AI Chatbot using Gemini and EmailJS", "React Portfolio with Three.js 3D Scenes"],
    "cletusbobola@gmail.com",
    "6381174925")

  /** What a question about the resume is answered with. */
  datatype Topic = Skills | Experience | Projects | Email | Phone | Clarify

  const SkillsReply: string := "Here are my skills: " + Join(ResumeData.skills, ", ")
  const ProjectsReply: string := "Projects: " + Join(ResumeData.projects, ", ")

  /** The reply text for each topic, built from the profile. */
  function TopicReply(t: Topic): string {
    match t
    case Skills => SkillsReply
    case Experience => "Experience: " + ResumeData.experience
    case Projects => ProjectsReply
    case Email => "You can contact me at " + ResumeData.email
    case Phone => "\U{1F4DE} " + ResumeData.phone
    case Clarify => "Please clarify what you'd like to know about my resume."
  }

  /** Any of the four words that send a question to the router. */
  predicate MentionsResume(l: string) {
    Contains(l, "resume") || Contains(l, "skill") || Contains(l, "experience") || Contains(l, "project")
  }

  /** The router: None when the lower-cased text names none of "resume",
      "skill", "experience", "project"; otherwise the first of skill,
      experience, project, email, phone that the text contains, or a
      request to clarify. */
  function Route(text: string): Option<Topic> {
    var l := Lower(text);
    if !MentionsResume(l) then None
    else if Contains(l, "skill") then Some(Skills)
    else if Contains(l, "experience") then Some(Experience)
    else if Contains(l, "project") then Some(Projects)
    else if Contains(l, "email") then Some(Email)
    else if Contains(l, "phone") then Some(Phone)
    else Some(Clarify)
  }

  /** Each topic is chosen for exactly these texts: the first matching keyword
      in the order skill, experience, project, email, phone wins, and email
      and phone are consulted only when "resume" is present too. */
  lemma RouteChoice(text: string)
    ensures var l := Lower(text); var r := Route(text);
      && (r == None <==> !MentionsResume(l))
      && (r == Some(Skills) <==> Contains(l, "skill"))
      && (r == Some(Experience) <==> !Contains(l, "skill") && Contains(l, "experience"))
      && (r == Some(Projects) <==>
            !Contains(l, "skill") && !Contains(l, "experience") && Contains(l, "project"))
      && (r == Some(Email) <==>
            && Contains(l, "resume") && !Contains(l, "skill") && !Contains(l, "experience")
            && !Contains(l, "project") && Contains(l, "email"))
      && (r == Some(Phone) <==>
            && Contains(l, "resume") && !Contains(l, "skill") && !Contains(l, "experience")
            && !Contains(l, "project") && !Contains(l, "email") && Contains(l, "phone"))
      && (r == Some(Clarify) <==>
            && Contains(l, "resume") && !Contains(l, "skill") && !Contains(l, "experience")
            && !Contains(l, "project") && !Contains(l, "email") && !Contains(l, "phone"))
  {
  }

  /** The skills reply lists every skill of the profile. */
  lemma SkillsReplyListsEverySkill(k: nat)
    requires k < |ResumeData.skills|
    ensures Contains(SkillsReply, ResumeData.skills[k])
  {
    PrefixedJoinContainsEach("Here are my skills: ", ResumeData.skills, ", ", k);
  }

  /** The projects reply lists every project of the profile. */
  lemma ProjectsReplyListsEveryProject(k: nat)
    requires k < |ResumeData.projects|
    ensures Contains(ProjectsReply, ResumeData.projects[k])
  {
    PrefixedJoinContainsEach("Projects: ", ResumeData.projects, ", ", k);
  }
}
