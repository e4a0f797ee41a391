/** The built-in roster of six team members (`src/data/members.ts`): the seed of the
    browser store and the source of the public pages when nothing else is stored. */
module SeedRoster {
  import opened Types
  import opened Roster

  /** `teamMembers`. No card of the built-in roster has a department. */
  function TeamMembers(): seq<Member> {
    [
      Member("kim-minjun", Details(
        "김민준", "Minjun Kim", "Team Lead & Full-Stack Developer", None,
        "minjun@paletto.team", "+82 10-1234-5678",
        "사용자 경험을 최우선으로 생각하는 개발자입니다. 새로운 기술을 탐구하고 팀과 함께 성장하는 것을 좋아합니다.",
        ["React", "Next.js", "TypeScript", "Node.js", "PostgreSQL"],
        map[GitHub := "https://github.com", LinkedIn := "https://linkedin.com"],
        "👨‍💻", "#87CEEB", "#5DADE2")),
      Member("lee-suji", Details(
        "이수지", "Suji Lee", "UI/UX Designer", None,
        "suji@paletto.team", "+82 10-2345-6789",
        "아름다움과 기능성의 조화를 추구하는 디자이너입니다. 사용자의 마음을 읽는 디자인을 만들어갑니다.",
        ["Figma", "Adobe XD", "Illustrator", "Photoshop", "Prototyping"],
        map[Instagram := "https://instagram.com", LinkedIn := "https://linkedin.com"],
        "👩‍🎨", "#B0E0E6", "#87CEEB")),
      Member("park-jihoon", Details(
        "박지훈", "Jihoon Park", "Backend Developer", None,
        "jihoon@paletto.team", "+82 10-3456-7890",
        "안정적이고 확장 가능한 시스템 구축을 목표로 합니다. 문제 해결에 열정을 가지고 있습니다.",
        ["Python", "Django", "AWS", "Docker", "Kubernetes"],
        map[GitHub := "https://github.com", Twitter := "https://twitter.com"],
        "👨‍🔧", "#5DADE2", "#3498DB")),
      Member("choi-yuna", Details(
        "최유나", "Yuna Choi", "Frontend Developer", None,
        "yuna@paletto.team", "+82 10-4567-8901",
        "인터랙티브하고 접근성 높은 웹 경험을 만드는 것을 좋아합니다. 디테일에 강합니다.",
        ["Vue.js", "React", "CSS", "Animation", "Accessibility"],
        map[GitHub := "https://github.com", LinkedIn := "https://linkedin.com"],
        "👩‍💻", "#E0F4FF", "#B0E0E6")),
      Member("jung-dohyun", Details(
        "정도현", "Dohyun Jung", "Product Manager", None,
        "dohyun@paletto.team", "+82 10-5678-9012",
        "사용자와 비즈니스 사이의 다리 역할을 합니다. 데이터 기반 의사결정을 지향합니다.",
        ["Product Strategy", "Agile", "Data Analysis", "User Research", "Jira"],
        map[LinkedIn := "https://linkedin.com", Twitter := "https://twitter.com"],
        "👨‍💼", "#87CEEB", "#B0E0E6")),
      Member("han-soyeon", Details(
        "한소연", "Soyeon Han", "DevOps Engineer", None,
        "soyeon@paletto.team", "+82 10-6789-0123",
        "효율적인 개발 환경과 안정적인 서비스 운영을 위해 노력합니다. 자동화의 힘을 믿습니다.",
        ["CI/CD", "Terraform", "Monitoring", "Linux", "Cloud Architecture"],
        map[GitHub := "https://github.com", LinkedIn := "https://linkedin.com"],
        "👩‍🔬", "#B0E0E6", "#5DADE2"))
    ]
  }

  /** `getMemberById` of the built-in roster: the first member with the id, if any. */
  function GetMemberById(id: string): (r: Option<Member>)
    ensures r.Some? ==> r.value.id == id && r.value in TeamMembers()
    ensures r.None? <==> !HasId(TeamMembers(), id)
  {
    FindByIdSpec(TeamMembers(), id);
    FindById(TeamMembers(), id)
  }

  function Ids(ms: seq<Member>): (r: seq<string>)
    ensures |r| == |ms|
    ensures forall i :: 0 <= i < |ms| ==> r[i] == ms[i].id
  {
    if ms == [] then [] else [ms[0].id] + Ids(ms[1..])
  }

  /** The six built-in ids are pairwise distinct, so lookups by id are unambiguous. */
  lemma SeedIdsDistinct()
    ensures |TeamMembers()| == 6
    ensures NoDuplicates(Ids(TeamMembers()))
  {
    var ids := Ids(TeamMembers());
    assert ids == ["kim-minjun", "lee-suji", "park-jihoon", "choi-yuna", "jung-dohyun", "han-soyeon"];
    // the six ids already differ in their first letter
    assert forall i, j :: 0 <= i < j < 6 ==> ids[i][0] != ids[j][0];
  }

  /** Every built-in card lists at least one skill and no skill twice. */
  lemma SeedSkillsWellFormed()
    ensures forall m :: m in TeamMembers() ==> m.details.skills != [] && NoDuplicates(m.details.skills)
  {
  }

  /** Every built-in id is found, and finds its own card. */
  lemma SeedLookup()
    ensures forall i :: 0 <= i < |TeamMembers()| ==> GetMemberById(TeamMembers()[i].id) == Some(TeamMembers()[i])
  {
    SeedIdsDistinct();
    var ms := TeamMembers();
    forall i | 0 <= i < |ms| ensures GetMemberById(ms[i].id) == Some(ms[i]) {
      FindByIdSpec(ms, ms[i].id);
      var k :| FirstWithId(ms, ms[i].id, k) && ms[k] == FindById(ms, ms[i].id).value;
      assert Ids(ms)[k] == Ids(ms)[i];
    }
  }
}
