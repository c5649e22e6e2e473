/** A fleet for concrete runs: one group "g" whose channel moves instances from one version to the next. */
module SmallFleet {
  import opened Versions
  import opened Wrappers
  import opened Floors
  import opened Runtime
  import opened RuntimeRuns

  const OLD := Version(1, 0)
  const NEW := Version(2, 0)
  const TARGET := Package("p", NEW, {}, false, None, Payload(false, "", "", "", [], None))
  const CHANNEL := Channel("c", Some(TARGET), [])
  const META := Metadata("", "", "", "")
  const NODE := Node(Config(false, false, 5), false)

  function Groups(p: Policy, rollout: bool): map<string, Group> {
    map["g" := Group(Some(CHANNEL), p, None, rollout)]
  }

  function Ask(name: string): Request {
    Request(name, META, Some(OLD), "g")
  }
}
