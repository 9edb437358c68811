/** The local chat responder: a constant reply table and a case-folded,
    first-match-wins keyword dispatch over it. */
module Chatbot {
  import opened Strings

  /** The six keys of the reply table. */
  datatype Category = Projects | Awards | Skills | Experience | Education | Default

  /** The entries of the reply table. */
  const ProjectsReply: string := "I've worked on several exciting projects! My key projects include an IPO Data Pipeline with PySpark (95% performance improvement), a Quality Management Tool with Flask, and a Real-time Review Dashboard using React and Kafka. Which one interests you most?"
  const AwardsReply: string := "I've been recognized with several awards: Hi5 Award for outstanding performance, Certificate of Appreciation for excellence in software development, and I was also a Smart India Hackathon Finalist. I'm also certified as a GIAC Python Coder from GUVI/IITM!"
  const SkillsReply: string := "My technical skills span across full-stack development! I specialize in Python, React.js, Node.js, PySpark, Kafka, MongoDB, Docker, and Flask. I love working with data pipelines and real-time systems. What specific technology would you like to know about?"
  const ExperienceReply: string := "I have 4+ years of experience in software development. Started as a freelance developer (2020-2022) working on Python automation, then joined Ramco Systems in 2022 where I've been building enterprise-scale solutions and winning awards for my contributions!"
  const EducationReply: string := "I graduated with a B.Tech in Computer Science with 7.22 CGPA in 2020. I've also completed certifications in Modern React (Udemy), GIAC Python Coder (GUVI/IITM), and Python Programming (SLA Institute)."
  const DefaultReply: string := "That's a great question! I'm here to help you learn about Mohankumar's journey as a software engineer. You can ask me about his projects, awards, skills, experience, or education. What would you like to know more about?"

  /** The constant reply table, one canned answer per category. */
  function Reply(c: Category): (r: string)
    ensures r != []
  {
    match c
    case Projects => ProjectsReply
    case Awards => AwardsReply
    case Skills => SkillsReply
    case Experience => ExperienceReply
    case Education => EducationReply
    case Default => DefaultReply
  }

  /** Every value of the reply table. */
  function Replies(): set<string> {
    {Reply(Projects), Reply(Awards), Reply(Skills), Reply(Experience), Reply(Education), Reply(Default)}
  }

  /** Every entry of the table is a non-empty string, and distinct keys hold
      distinct replies, so a reply tells which category was chosen. */
  lemma ReplyInjective(c: Category, d: Category)
    ensures Reply(c) != []
    ensures Reply(c) == Reply(d) <==> c == d
  {
  }

  /** The dispatch of `generateLocalResponse`: fold the message, then test the
      triggers in their fixed order; the first that occurs decides. The chosen
      category is the first rule of the rule list `Rules` that fires on the
      folded message. */
  function Classify(message: string): (c: Category)
    ensures c == FirstFiring(Rules, 0, Lower(message))
  {
    var lower := Lower(message);
    TriggersScanned(message);
    FiresOne("project", lower);
    FiresOne("award", lower);
    FiresTwo("skill", "tech", lower);
    FiresOne("experience", lower);
    FiresOne("education", lower);
    assert FirstFiring(Rules, 4, lower) == if Contains(lower, "education") then Education else Default;
    assert FirstFiring(Rules, 3, lower) ==
      if Contains(lower, "experience") then Experience else FirstFiring(Rules, 4, lower);
    if Includes(lower, "project") then Projects
    else if Includes(lower, "award") then Awards
    else if Includes(lower, "skill") || Includes(lower, "tech") then Skills
    else if Includes(lower, "experience") then Experience
    else if Includes(lower, "education") then Education
    else Default
  }

  /** The responder: always one of the table's entries, never empty. */
  function GenerateLocalResponse(message: string): (r: string)
    ensures r in Replies()
    ensures r != []
  {
    Reply(Classify(message))
  }

  /** The message mentions trigger t once folded. */
  ghost predicate Mentions(message: string, t: string) {
    Contains(Lower(message), t)
  }

  /** The scans in Classify decide exactly the reference notion of occurrence. */
  lemma TriggersScanned(message: string)
    ensures Includes(Lower(message), "project") <==> Mentions(message, "project")
    ensures Includes(Lower(message), "award") <==> Mentions(message, "award")
    ensures Includes(Lower(message), "skill") <==> Mentions(message, "skill")
    ensures Includes(Lower(message), "tech") <==> Mentions(message, "tech")
    ensures Includes(Lower(message), "experience") <==> Mentions(message, "experience")
    ensures Includes(Lower(message), "education") <==> Mentions(message, "education")
  {
    var lower := Lower(message);
    IncludesIsContains(lower, "project");
    IncludesIsContains(lower, "award");
    IncludesIsContains(lower, "skill");
    IncludesIsContains(lower, "tech");
    IncludesIsContains(lower, "experience");
    IncludesIsContains(lower, "education");
  }

  /** "project" wins whatever else the message mentions. */
  lemma ProjectsWhen(message: string)
    ensures Classify(message) == Projects <==> Mentions(message, "project")
  {
    TriggersScanned(message);
  }

  /** "award" decides when "project" is absent. */
  lemma AwardsWhen(message: string)
    ensures Classify(message) == Awards <==>
      !Mentions(message, "project") && Mentions(message, "award")
  {
    TriggersScanned(message);
  }

  /** "skill" or "tech" decides when neither earlier trigger is present. */
  lemma SkillsWhen(message: string)
    ensures Classify(message) == Skills <==>
      && !Mentions(message, "project") && !Mentions(message, "award")
      && (Mentions(message, "skill") || Mentions(message, "tech"))
  {
    TriggersScanned(message);
  }

  /** "experience" decides when no earlier trigger is present. */
  lemma ExperienceWhen(message: string)
    ensures Classify(message) == Experience <==>
      && !Mentions(message, "project") && !Mentions(message, "award")
      && !Mentions(message, "skill") && !Mentions(message, "tech")
      && Mentions(message, "experience")
  {
    TriggersScanned(message);
  }

  /** "education" decides when no earlier trigger is present. */
  lemma EducationWhen(message: string)
    ensures Classify(message) == Education <==>
      && !Mentions(message, "project") && !Mentions(message, "award")
      && !Mentions(message, "skill") && !Mentions(message, "tech")
      && !Mentions(message, "experience") && Mentions(message, "education")
  {
    TriggersScanned(message);
  }

  /** The default reply is given exactly when no trigger occurs. */
  lemma DefaultWhen(message: string)
    ensures Classify(message) == Default <==>
      && !Mentions(message, "project") && !Mentions(message, "award")
      && !Mentions(message, "skill") && !Mentions(message, "tech")
      && !Mentions(message, "experience") && !Mentions(message, "education")
  {
    TriggersScanned(message);
  }

  /** The reply given is the table entry of the chosen category and of no other. */
  lemma ResponseNamesCategory(message: string, c: Category)
    ensures GenerateLocalResponse(message) == Reply(c) <==> Classify(message) == c
  {
    ReplyInjective(Classify(message), c);
  }

  /** The dispatch written as data: each category with its trigger words, in priority order. */
  const Rules: seq<(Category, seq<string>)> := [
    (Projects, ["project"]),
    (Awards, ["award"]),
    (Skills, ["skill", "tech"]),
    (Experience, ["experience"]),
    (Education, ["education"])
  ]

  /** Some word of the list occurs in s. */
  ghost predicate Fires(words: seq<string>, s: string) {
    exists t :: t in words && Contains(s, t)
  }

  /** Reference reading of an ordered rule list, from rule k on: the first
      rule one of whose words occurs in s decides; when none does, the default. */
  ghost function FirstFiring(rules: seq<(Category, seq<string>)>, k: nat, s: string): Category
    decreases |rules| - k
  {
    if k >= |rules| then Default
    else if Fires(rules[k].1, s) then rules[k].0
    else FirstFiring(rules, k + 1, s)
  }

  /** A one-word rule fires exactly when its word occurs. */
  lemma FiresOne(w: string, s: string)
    ensures Fires([w], s) <==> Contains(s, w)
  {
    assert w in [w];
  }

  /** A two-word rule fires exactly when one of its words occurs. */
  lemma FiresTwo(w: string, v: string, s: string)
    ensures Fires([w, v], s) <==> Contains(s, w) || Contains(s, v)
  {
    assert w in [w, v] && v in [w, v];
  }

  /** Only the folded message matters: folding it first changes nothing. */
  lemma CaseInsensitive(message: string)
    ensures Classify(Lower(message)) == Classify(message)
    ensures GenerateLocalResponse(Lower(message)) == GenerateLocalResponse(message)
  {
    LowerIdempotent(message);
  }

  /** A "project" written in any case anywhere in the message gives the projects reply. */
  lemma ProjectAnywhere(before: string, word: string, after: string)
    requires Lower(word) == "project"
    ensures Classify(before + word + after) == Projects
  {
    var m := before + word + after;
    LowerAppend(before + word, after);
    LowerAppend(before, word);
    InfixContains(Lower(before), "project", Lower(after));
    ProjectsWhen(m);
  }

  /** "PROJECT", "Project" and "project" get the same, projects, reply. */
  lemma ProjectExamples()
    ensures Classify("PROJECT") == Projects
    ensures Classify("Project") == Projects
    ensures Classify("project") == Projects
  {
  }

  /** "project" is checked before "award": a message mentioning both gets the projects reply. */
  lemma PriorityExample(message: string)
    requires message == "tell me about your project awards"
    ensures Classify(message) == Projects
  {
    assert message == "tell me about your " + "project" + " awards";
    ProjectAnywhere("tell me about your ", "project", " awards");
  }

  /** "tech" alone selects the skills reply. */
  lemma TechExample(message: string)
    requires message == "I'd love to know your tech stack"
    ensures Classify(message) == Skills
  {
    var s := "i'd love to know your tech stack";
    assert Lower(message) == s by {
      forall i | 0 <= i < |s| ensures Lower(message)[i] == s[i] {
        if i != 0 { assert message[i] == s[i]; }
      }
    }
    TechMessageTriggers(Lower(message));
    SkillsWhen(message);
  }

  /** The folded message of TechExample holds "tech" but neither "project" nor "award". */
  lemma TechMessageTriggers(s: string)
    requires s == "i'd love to know your tech stack"
    ensures Contains(s, "tech") && !Contains(s, "project") && !Contains(s, "award")
  {
    AbsentCharBlocks(s, "project", 0);
    // the only 'a' of s comes too late for "award" to fit after it
    LateFirstCharBlocks(s, "award");
    assert s == "i'd love to know your " + "tech" + " stack";
    InfixContains("i'd love to know your ", "tech", " stack");
  }

  /** Messages without any trigger, the empty one included, get the default reply. */
  lemma DefaultExamples(message: string)
    requires message == "" || message == "hello" || message == "12345"
    ensures Classify(message) == Default
  {
    FoldedIsFixed(message);
    AbsentCharBlocks(message, "project", 0);
    AbsentCharBlocks(message, "award", 0);
    AbsentCharBlocks(message, "skill", 0);
    AbsentCharBlocks(message, "tech", 0);
    AbsentCharBlocks(message, "experience", 1);
    AbsentCharBlocks(message, "education", 1);
    DefaultWhen(message);
  }
}
