/** The holder of the two free-text inputs of a run (the course or offer
    description and the target persona), `app/agents/course_persona_agent.py`. */
module CoursePersona {
  import opened Base

  /** The agent's state: each field is `None` until the first `load`. */
  datatype Agent = Agent(courseDetails: Option<string>, persona: Option<string>)

  /** The dictionary `get_context` returns. */
  datatype Context = Context(courseDetails: Option<string>, persona: Option<string>)

  /** A freshly constructed agent holds nothing yet. */
  function New(): (a: Agent)
    ensures a.courseDetails == None && a.persona == None
  {
    Agent(None, None)
  }

  /** `load` replaces both fields; whatever was loaded before is forgotten,
      so the context read afterwards is exactly the pair just loaded. */
  function Load(a: Agent, courseDetails: string, persona: string): (r: Agent)
    ensures GetContext(r) == Context(Some(courseDetails), Some(persona))
  {
    Agent(Some(courseDetails), Some(persona))
  }

  /** `get_context` reports the stored fields. It is a function of the
      agent's value, so reading the context cannot change the agent. */
  function GetContext(a: Agent): (c: Context)
    ensures c.courseDetails == a.courseDetails && c.persona == a.persona
  {
    Context(a.courseDetails, a.persona)
  }

  /** What an agent held before a `load` has no effect on it afterwards. */
  lemma LoadForgetsHistory(a: Agent, b: Agent, courseDetails: string, persona: string)
    ensures Load(a, courseDetails, persona) == Load(b, courseDetails, persona)
  {
  }

  /** Of two successive loads, the second wins. */
  lemma LastLoadWins(a: Agent, c1: string, p1: string, c2: string, p2: string)
    ensures GetContext(Load(Load(a, c1, p1), c2, p2)) == Context(Some(c2), Some(p2))
  {
  }
}
