/** The members collection endpoint (`src/app/api/members/route.ts`) over three tables:
    profile rows, skill rows and social-link rows. Tables are sequences in insertion
    order. GET joins the rows back into cards; POST flattens one card into rows, one
    INSERT statement at a time, with no transaction around them. */
module MembersApi {
  import opened Types
  import opened MemberIds

  /** A row of `members`. `department` is a column that POST leaves unset. */
  datatype MemberRow = MemberRow(
    id: string,
    name: string,
    nameEn: string,
    role: string,
    department: Option<string>,
    email: string,
    phone: string,
    bio: string,
    avatar: string,
    gradientFrom: string,
    gradientTo: string)

  /** A row of `skills`. */
  datatype SkillRow = SkillRow(memberId: string, skillName: string)

  /** A row of `social_links`. */
  datatype SocialRow = SocialRow(memberId: string, platform: Platform, url: string)

  // ===========================================================================
  // GET: rebuild the cards from the rows.

  /** `skills.filter(s => s.member_id === id).map(s => s.skill_name)`. */
  function SkillsOf(rows: seq<SkillRow>, id: string): seq<string> {
    if rows == [] then []
    else (if rows[0].memberId == id then [rows[0].skillName] else []) + SkillsOf(rows[1..], id)
  }

  /** `socials.filter(s => s.member_id === id)`. */
  function SocialsOf(rows: seq<SocialRow>, id: string): seq<SocialRow> {
    if rows == [] then []
    else (if rows[0].memberId == id then [rows[0]] else []) + SocialsOf(rows[1..], id)
  }

  /** `reduce((acc, s) => ({ ...acc, [s.platform]: s.url }), acc)`: a left fold. */
  function FoldSocial(rows: seq<SocialRow>, acc: map<Platform, string>): map<Platform, string> {
    if rows == [] then acc else FoldSocial(rows[1..], acc[rows[0].platform := rows[0].url])
  }

  /** The card GET builds from one profile row; the department column is not read. */
  function ToMember(row: MemberRow, skills: seq<SkillRow>, socials: seq<SocialRow>): Member {
    Member(row.id, Details(
      row.name, row.nameEn, row.role, None, row.email, row.phone, row.bio,
      SkillsOf(skills, row.id),
      FoldSocial(SocialsOf(socials, row.id), map[]),
      row.avatar, row.gradientFrom, row.gradientTo))
  }

  /** The body of a successful GET: one card per profile row, in row order. */
  function Join(members: seq<MemberRow>, skills: seq<SkillRow>, socials: seq<SocialRow>): seq<Member> {
    if members == [] then []
    else [ToMember(members[0], skills, socials)] + Join(members[1..], skills, socials)
  }

  /** GET answers with exactly one card per profile row, in the order of the rows, and
      every card carries its row's id and no department. */
  lemma {:induction false} JoinSpec(members: seq<MemberRow>, skills: seq<SkillRow>, socials: seq<SocialRow>)
    ensures |Join(members, skills, socials)| == |members|
    ensures forall i :: 0 <= i < |members| ==>
              Join(members, skills, socials)[i] == ToMember(members[i], skills, socials) &&
              Join(members, skills, socials)[i].id == members[i].id &&
              Join(members, skills, socials)[i].details.department == None
  {
    if members != [] {
      JoinSpec(members[1..], skills, socials);
    }
  }

  /** Rows that differ only in their department column give the same GET body. */
  lemma {:induction false} JoinIgnoresDepartment(a: seq<MemberRow>, b: seq<MemberRow>,
                                                 skills: seq<SkillRow>, socials: seq<SocialRow>)
    requires |a| == |b|
    requires forall i :: 0 <= i < |a| ==> a[i] == b[i].(department := a[i].department)
    ensures Join(a, skills, socials) == Join(b, skills, socials)
  {
    if a != [] {
      JoinIgnoresDepartment(a[1..], b[1..], skills, socials);
    }
  }

  /** A card's skills are the matching skill rows in row order, duplicates kept: the
      selection distributes over concatenation. */
  lemma {:induction false} SkillsOfAppend(a: seq<SkillRow>, b: seq<SkillRow>, id: string)
    ensures SkillsOf(a + b, id) == SkillsOf(a, id) + SkillsOf(b, id)
  {
    if a == [] {
      assert a + b == b;
    } else {
      assert (a + b)[0] == a[0];
      assert (a + b)[1..] == a[1..] + b;
      SkillsOfAppend(a[1..], b, id);
    }
  }

  lemma {:induction false} SocialsOfAppend(a: seq<SocialRow>, b: seq<SocialRow>, id: string)
    ensures SocialsOf(a + b, id) == SocialsOf(a, id) + SocialsOf(b, id)
  {
    if a == [] {
      assert a + b == b;
    } else {
      assert (a + b)[0] == a[0];
      assert (a + b)[1..] == a[1..] + b;
      SocialsOfAppend(a[1..], b, id);
    }
  }

  /** The social map is a left fold, so the last matching row for a platform wins, and
      a platform without rows keeps what the accumulator had (nothing, for GET). */
  lemma {:induction false} FoldSocialLastWins(rows: seq<SocialRow>, acc: map<Platform, string>, p: Platform)
    ensures p in FoldSocial(rows, acc) <==> p in acc || exists i :: 0 <= i < |rows| && rows[i].platform == p
    ensures forall i :: 0 <= i < |rows| && rows[i].platform == p &&
                        (forall j :: i < j < |rows| ==> rows[j].platform != p) ==>
              FoldSocial(rows, acc)[p] == rows[i].url
    ensures (forall i :: 0 <= i < |rows| ==> rows[i].platform != p) && p in acc ==>
              FoldSocial(rows, acc)[p] == acc[p]
  {
    if rows != [] {
      var acc' := acc[rows[0].platform := rows[0].url];
      FoldSocialLastWins(rows[1..], acc', p);
      if exists i :: 0 <= i < |rows| && rows[i].platform == p {
        var i :| 0 <= i < |rows| && rows[i].platform == p;
        if i > 0 { assert rows[1..][i - 1].platform == p; }
      }
      forall i | 0 <= i < |rows| && rows[i].platform == p &&
                 (forall j :: i < j < |rows| ==> rows[j].platform != p)
        ensures FoldSocial(rows, acc)[p] == rows[i].url
      {
        if i > 0 {
          assert rows[1..][i - 1] == rows[i];
          forall j | i - 1 < j < |rows| - 1 ensures rows[1..][j].platform != p {
            assert rows[1..][j] == rows[j + 1];
          }
        } else {
          forall j | 0 <= j < |rows| - 1 ensures rows[1..][j].platform != p {
            assert rows[1..][j] == rows[j + 1];
          }
        }
      }
      if forall i :: 0 <= i < |rows| ==> rows[i].platform != p {
        forall j | 0 <= j < |rows| - 1 ensures rows[1..][j].platform != p {
          assert rows[1..][j] == rows[j + 1];
        }
      }
    }
  }

  lemma {:induction false} FoldSocialAppend(a: seq<SocialRow>, b: seq<SocialRow>, acc: map<Platform, string>)
    ensures FoldSocial(a + b, acc) == FoldSocial(b, FoldSocial(a, acc))
  {
    if a == [] {
      assert a + b == b;
    } else {
      assert (a + b)[0] == a[0];
      assert (a + b)[1..] == a[1..] + b;
      FoldSocialAppend(a[1..], b, acc[a[0].platform := a[0].url]);
    }
  }

  // ===========================================================================
  // POST: flatten a card into rows.

  /** The profile row POST inserts; it sets no department. */
  function ProfileRow(id: string, d: Details): MemberRow {
    MemberRow(id, d.name, d.nameEn, d.role, None, d.email, d.phone, d.bio,
              d.avatar, d.gradientFrom, d.gradientTo)
  }

  /** One skill row per skill, in array order, empty and repeated skills included. */
  function SkillRows(id: string, skills: seq<string>): (r: seq<SkillRow>)
    ensures |r| == |skills|
    ensures forall i :: 0 <= i < |skills| ==> r[i] == SkillRow(id, skills[i])
  {
    if skills == [] then [] else [SkillRow(id, skills[0])] + SkillRows(id, skills[1..])
  }

  /** The row POST writes for one platform: one row when its URL is truthy, none
      otherwise. */
  function LinkRow(id: string, social: map<Platform, string>, p: Platform): seq<SocialRow> {
    if HasUrl(social, p) then [SocialRow(id, p, social[p])] else []
  }

  /** The rows for a list of platforms, in list order. */
  function SocialRowsOf(id: string, social: map<Platform, string>, ps: seq<Platform>): seq<SocialRow> {
    if ps == [] then [] else LinkRow(id, social, ps[0]) + SocialRowsOf(id, social, ps[1..])
  }

  /** The social rows POST inserts: platforms in the order github, linkedin, twitter,
      instagram. */
  function SocialRows(id: string, social: map<Platform, string>): seq<SocialRow> {
    SocialRowsOf(id, social, Platforms)
  }

  lemma {:induction false} SocialRowsOfAppend(id: string, social: map<Platform, string>, a: seq<Platform>, b: seq<Platform>)
    ensures SocialRowsOf(id, social, a + b) == SocialRowsOf(id, social, a) + SocialRowsOf(id, social, b)
  {
    if a == [] {
      assert a + b == b;
    } else {
      assert (a + b)[0] == a[0];
      assert (a + b)[1..] == a[1..] + b;
      SocialRowsOfAppend(id, social, a[1..], b);
    }
  }

  lemma SocialRowsUnfold(id: string, social: map<Platform, string>)
    ensures SocialRows(id, social) == LinkRow(id, social, GitHub) + LinkRow(id, social, LinkedIn)
                                      + LinkRow(id, social, Twitter) + LinkRow(id, social, Instagram)
  {
    var P := Platforms;
    var P1, P2, P3: seq<Platform> := [LinkedIn, Twitter, Instagram], [Twitter, Instagram], [Instagram];
    assert P[0] == GitHub && P[1..] == P1;
    assert P1[0] == LinkedIn && P1[1..] == P2;
    assert P2[0] == Twitter && P2[1..] == P3;
    assert P3[0] == Instagram && P3[1..] == [];
    assert SocialRowsOf(id, social, P3) == LinkRow(id, social, Instagram);
    var g, l, t, i := LinkRow(id, social, GitHub), LinkRow(id, social, LinkedIn),
                      LinkRow(id, social, Twitter), LinkRow(id, social, Instagram);
    assert SocialRowsOf(id, social, P2) == t + i;
    assert SocialRowsOf(id, social, P1) == l + (t + i);
    assert SocialRowsOf(id, social, P) == g + (l + (t + i));
    assert g + (l + (t + i)) == g + l + t + i;
  }

  /** POST writes only truthy URLs, at most one row per platform, all under the new id;
      every truthy platform gets its row. */
  lemma SocialRowsSpec(id: string, social: map<Platform, string>)
    ensures forall r :: r in SocialRows(id, social) ==>
              r.memberId == id && HasUrl(social, r.platform) && r.url == social[r.platform]
    ensures forall p :: HasUrl(social, p) ==> SocialRow(id, p, social[p]) in SocialRows(id, social)
    ensures |SocialRows(id, social)| <= 4
  {
    SocialRowsUnfold(id, social);
    var g, l, t, i := LinkRow(id, social, GitHub), LinkRow(id, social, LinkedIn),
                      LinkRow(id, social, Twitter), LinkRow(id, social, Instagram);
    forall p | HasUrl(social, p) ensures SocialRow(id, p, social[p]) in SocialRows(id, social) {
      var r := SocialRow(id, p, social[p]);
      match p
      case GitHub => assert r in g;
      case LinkedIn => assert r in l;
      case Twitter => assert r in t;
      case Instagram => assert r in i;
    }
  }

  /** What GET gives back for a card POST stored: the department is gone and so are
      the platforms whose URL was falsy. */
  function AsStored(d: Details): Details {
    d.(department := None, social := Truthy(d.social))
  }

  lemma {:induction false} SkillsOfRows(id: string, other: string, skills: seq<string>)
    ensures SkillsOf(SkillRows(id, skills), id) == skills
    ensures other != id ==> SkillsOf(SkillRows(id, skills), other) == []
  {
    if skills != [] {
      var rows := SkillRows(id, skills);
      assert rows[1..] == SkillRows(id, skills[1..]);
      SkillsOfRows(id, other, skills[1..]);
    }
  }

  lemma {:induction false} SkillsOfNone(rows: seq<SkillRow>, id: string)
    requires forall r :: r in rows ==> r.memberId != id
    ensures SkillsOf(rows, id) == []
  {
    if rows != [] {
      assert rows[0] in rows;
      assert forall r :: r in rows[1..] ==> r in rows;
      SkillsOfNone(rows[1..], id);
    }
  }

  lemma {:induction false} SocialsOfNone(rows: seq<SocialRow>, id: string)
    requires forall r :: r in rows ==> r.memberId != id
    ensures SocialsOf(rows, id) == []
  {
    if rows != [] {
      assert rows[0] in rows;
      assert forall r :: r in rows[1..] ==> r in rows;
      SocialsOfNone(rows[1..], id);
    }
  }

  lemma {:induction false} SocialsOfAll(rows: seq<SocialRow>, id: string)
    requires forall r :: r in rows ==> r.memberId == id
    ensures SocialsOf(rows, id) == rows
  {
    if rows != [] {
      assert rows[0] in rows;
      assert forall r :: r in rows[1..] ==> r in rows;
      SocialsOfAll(rows[1..], id);
    }
  }

  lemma FoldLinkRow(id: string, social: map<Platform, string>, p: Platform, acc: map<Platform, string>)
    ensures FoldSocial(LinkRow(id, social, p), acc) == if HasUrl(social, p) then acc[p := social[p]] else acc
  {
  }

  /** Folding the rows POST writes yields the card's social map without falsy URLs. */
  lemma FoldSocialRows(id: string, social: map<Platform, string>)
    ensures FoldSocial(SocialRows(id, social), map[]) == Truthy(social)
  {
    var r0, r1, r2, r3 := LinkRow(id, social, GitHub), LinkRow(id, social, LinkedIn),
                          LinkRow(id, social, Twitter), LinkRow(id, social, Instagram);
    SocialRowsUnfold(id, social);
    FoldSocialAppend(r0 + r1 + r2, r3, map[]);
    FoldSocialAppend(r0 + r1, r2, map[]);
    FoldSocialAppend(r0, r1, map[]);
    var m0 := FoldSocial(r0, map[]);
    var m1 := FoldSocial(r1, m0);
    var m2 := FoldSocial(r2, m1);
    var m3 := FoldSocial(r3, m2);
    FoldLinkRow(id, social, GitHub, map[]);
    FoldLinkRow(id, social, LinkedIn, m0);
    FoldLinkRow(id, social, Twitter, m1);
    FoldLinkRow(id, social, Instagram, m2);
    var t := Truthy(social);
    forall p ensures (p in m3 <==> p in t) && (p in t ==> m3[p] == t[p]) {
      match p
      case GitHub =>
      case LinkedIn =>
      case Twitter =>
      case Instagram =>
    }
    assert m3 == t;
  }

  lemma ToMemberUnaffected(row: MemberRow, skills: seq<SkillRow>, socials: seq<SocialRow>,
                            id: string, newSkills: seq<SkillRow>, newSocials: seq<SocialRow>)
    requires row.id != id
    requires forall r :: r in newSkills ==> r.memberId == id
    requires forall r :: r in newSocials ==> r.memberId == id
    ensures ToMember(row, skills + newSkills, socials + newSocials) == ToMember(row, skills, socials)
  {
    SkillsOfAppend(skills, newSkills, row.id);
    SkillsOfNone(newSkills, row.id);
    assert SkillsOf(skills + newSkills, row.id) == SkillsOf(skills, row.id);
    SocialsOfAppend(socials, newSocials, row.id);
    SocialsOfNone(newSocials, row.id);
    assert SocialsOf(socials + newSocials, row.id) == SocialsOf(socials, row.id);
  }

  /** GET of tables that hold no rows for `id` is unaffected by appending rows for `id`
      (old cards keep their skills and links). */
  lemma {:induction false} JoinUnaffected(members: seq<MemberRow>, skills: seq<SkillRow>, socials: seq<SocialRow>,
                                          id: string, newSkills: seq<SkillRow>, newSocials: seq<SocialRow>)
    requires forall i :: 0 <= i < |members| ==> members[i].id != id
    requires forall r :: r in newSkills ==> r.memberId == id
    requires forall r :: r in newSocials ==> r.memberId == id
    ensures Join(members, skills + newSkills, socials + newSocials) == Join(members, skills, socials)
  {
    if members != [] {
      ToMemberUnaffected(members[0], skills, socials, id, newSkills, newSocials);
      JoinUnaffected(members[1..], skills, socials, id, newSkills, newSocials);
    }
  }

  lemma {:induction false} JoinAppend(members: seq<MemberRow>, row: MemberRow, skills: seq<SkillRow>, socials: seq<SocialRow>)
    ensures Join(members + [row], skills, socials) == Join(members, skills, socials) + [ToMember(row, skills, socials)]
  {
    if members == [] {
      assert members + [row] == [row];
    } else {
      assert (members + [row])[0] == members[0];
      assert (members + [row])[1..] == members[1..] + [row];
      JoinAppend(members[1..], row, skills, socials);
    }
  }

  /** Round trip: starting from tables with no rows for `id`, GET after a complete POST
      returns every earlier card unchanged followed by the posted card, with the same
      skills in the same order and the social map without falsy URLs. */
  lemma PostThenGet(members: seq<MemberRow>, skills: seq<SkillRow>, socials: seq<SocialRow>, id: string, d: Details)
    requires forall r :: r in members ==> r.id != id
    requires forall r :: r in skills ==> r.memberId != id
    requires forall r :: r in socials ==> r.memberId != id
    ensures Join(members + [ProfileRow(id, d)], skills + SkillRows(id, d.skills), socials + SocialRows(id, d.social))
            == Join(members, skills, socials) + [Member(id, AsStored(d))]
  {
    var ns, nl := SkillRows(id, d.skills), SocialRows(id, d.social);
    SocialRowsSpec(id, d.social);
    assert forall r :: r in ns ==> r.memberId == id;
    assert forall i :: 0 <= i < |members| ==> members[i].id != id by {
      forall i | 0 <= i < |members| ensures members[i].id != id {
        assert members[i] in members;
      }
    }
    JoinAppend(members, ProfileRow(id, d), skills + ns, socials + nl);
    JoinUnaffected(members, skills, socials, id, ns, nl);
    PostedCard(skills, socials, id, d);
  }

  /** The card GET rebuilds from the rows of one POST. */
  lemma PostedCard(skills: seq<SkillRow>, socials: seq<SocialRow>, id: string, d: Details)
    requires forall r :: r in skills ==> r.memberId != id
    requires forall r :: r in socials ==> r.memberId != id
    ensures ToMember(ProfileRow(id, d), skills + SkillRows(id, d.skills), socials + SocialRows(id, d.social))
            == Member(id, AsStored(d))
  {
    var ns, nl := SkillRows(id, d.skills), SocialRows(id, d.social);
    SkillsOfAppend(skills, ns, id);
    SkillsOfNone(skills, id);
    SkillsOfRows(id, id, d.skills);
    assert SkillsOf(skills + ns, id) == d.skills;
    SocialRowsSpec(id, d.social);
    SocialsOfAppend(socials, nl, id);
    SocialsOfNone(socials, id);
    SocialsOfAll(nl, id);
    assert SocialsOf(socials + nl, id) == nl;
    FoldSocialRows(id, d.social);
  }

  /** The rows for the first `k + 1` platforms extend those for the first `k` by the
      row of platform `k`, and both are a prefix of all the rows POST inserts. */
  lemma SocialRowsStep(id: string, social: map<Platform, string>, k: nat)
    requires k < |Platforms|
    ensures SocialRowsOf(id, social, Platforms[..k + 1])
            == SocialRowsOf(id, social, Platforms[..k]) + LinkRow(id, social, Platforms[k])
    ensures SocialRowsOf(id, social, Platforms[..k + 1]) <= SocialRows(id, social)
  {
    assert Platforms[..k + 1] == Platforms[..k] + [Platforms[k]];
    SocialRowsOfAppend(id, social, Platforms[..k], [Platforms[k]]);
    assert Platforms == Platforms[..k + 1] + Platforms[k + 1..];
    SocialRowsOfAppend(id, social, Platforms[..k + 1], Platforms[k + 1..]);
  }

  // ===========================================================================
  // The endpoint itself.

  /** The id POST uses: the body's own id when it is truthy, a generated one otherwise. */
  function ChooseId(body: Member, now: nat): (id: string)
    ensures body.id != "" ==> id == body.id
    ensures body.id == "" ==> id == GenerateId(body.details.name, now, true)
  {
    if body.id != "" then body.id else GenerateId(body.details.name, now, true)
  }

  /** `{ success: true, id }` with status 201, or status 500. */
  datatype PostResponse = Created(id: string) | ServerError

  function Min(a: nat, b: nat): nat {
    if a <= b then a else b
  }

  /** How many of `count` statements run when `before` statements precede them and the
      connection executes `budget` statements in all. */
  function Executed(budget: nat, before: nat, count: nat): (k: nat)
    ensures k <= count
  {
    if budget <= before then 0 else Min(budget - before, count)
  }

  predicate IdTaken(members: seq<MemberRow>, id: string) {
    exists r :: r in members && r.id == id
  }

  class Database {
    var members: seq<MemberRow>
    var skills: seq<SkillRow>
    var socials: seq<SocialRow>

    constructor (members: seq<MemberRow>, skills: seq<SkillRow>, socials: seq<SocialRow>)
      ensures this.members == members && this.skills == skills && this.socials == socials
    {
      this.members, this.skills, this.socials := members, skills, socials;
    }

    /** The body of a successful GET in the current state. */
    function Listing(): seq<Member>
      reads this
    {
      Join(members, skills, socials)
    }

    /** POST: insert the profile row, then one skill row per skill, then one social row
        per truthy platform. `budget` is how many statements the connection executes
        before it fails; a profile INSERT whose id is already a primary key fails too.
        A failure answers 500 and leaves the rows inserted so far in place. */
    method Post(body: Member, now: nat, budget: nat) returns (resp: PostResponse)
      modifies this
      ensures var id := ChooseId(body, now);
              IdTaken(old(members), id) ==>
                resp == ServerError && members == old(members) &&
                skills == old(skills) && socials == old(socials)
      ensures var id, d := ChooseId(body, now), body.details;
              var n, q := |d.skills|, |SocialRows(id, d.social)|;
              !IdTaken(old(members), id) ==>
                && members == old(members) + (if budget > 0 then [ProfileRow(id, d)] else [])
                && skills == old(skills) + SkillRows(id, d.skills)[..Executed(budget, 1, n)]
                && socials == old(socials) + SocialRows(id, d.social)[..Executed(budget, 1 + n, q)]
                && resp == if budget >= 1 + n + q then Created(id) else ServerError
    {
      var d := body.details;
      var id := ChooseId(body, now);
      if budget == 0 || IdTaken(members, id) {
        return ServerError;
      }
      members := members + [ProfileRow(id, d)];
      var ok, left := InsertSkills(id, d.skills, budget - 1);
      if !ok {
        return ServerError;
      }
      ok := InsertSocials(id, d.social, left);
      if !ok {
        return ServerError;
      }
      return Created(id);
    }

    /** The skill loop of POST: one INSERT per skill, in order, while the connection
        still executes statements; `rest` is what is left of `left` afterwards. */
    method InsertSkills(id: string, names: seq<string>, left: nat) returns (ok: bool, rest: nat)
      modifies this
      ensures members == old(members) && socials == old(socials)
      ensures skills == old(skills) + SkillRows(id, names)[..Min(left, |names|)]
      ensures ok <==> left >= |names|
      ensures ok ==> rest == left - |names|
    {
      ghost var all := SkillRows(id, names);
      rest := left;
      var i := 0;
      while i < |names|
        invariant 0 <= i <= |names| && i <= left
        invariant rest == left - i
        invariant members == old(members) && socials == old(socials)
        invariant skills == old(skills) + all[..i]
      {
        if rest == 0 {
          return false, rest;
        }
        assert all[..i + 1] == all[..i] + [SkillRow(id, names[i])];
        skills := skills + [SkillRow(id, names[i])];
        rest := rest - 1;
        i := i + 1;
      }
      assert all[..i] == all;
      return true, rest;
    }

    /** The social loop of POST: github, linkedin, twitter, instagram in turn, one
        INSERT for each platform whose URL is truthy, while the connection still
        executes statements. */
    method InsertSocials(id: string, social: map<Platform, string>, left: nat) returns (ok: bool)
      modifies this
      ensures members == old(members) && skills == old(skills)
      ensures socials == old(socials) + SocialRows(id, social)[..Min(left, |SocialRows(id, social)|)]
      ensures ok <==> left >= |SocialRows(id, social)|
    {
      ghost var all := SocialRows(id, social);
      var rest: nat := left;
      var k := 0;
      while k < |Platforms|
        invariant 0 <= k <= |Platforms|
        invariant members == old(members) && skills == old(skills)
        invariant SocialRowsOf(id, social, Platforms[..k]) <= all
        invariant socials == old(socials) + SocialRowsOf(id, social, Platforms[..k])
        invariant rest + |SocialRowsOf(id, social, Platforms[..k])| == left
      {
        var p := Platforms[k];
        SocialRowsStep(id, social, k);
        if HasUrl(social, p) {
          if rest == 0 {
            return false;
          }
          socials := socials + [SocialRow(id, p, social[p])];
          rest := rest - 1;
        }
        k := k + 1;
      }
      assert Platforms[..k] == Platforms;
      assert SocialRowsOf(id, social, Platforms[..k]) == all;
      assert all[..Min(left, |all|)] == all;
      return true;
    }
  }

  /** POST then GET on tables that hold nothing for the new id: the listing gains the
      posted card, stored as GET will show it, at the end. */
  method PostThenList(db: Database, body: Member, now: nat) returns (resp: PostResponse)
    modifies db
    requires forall r :: r in db.members ==> r.id != ChooseId(body, now)
    requires forall r :: r in db.skills ==> r.memberId != ChooseId(body, now)
    requires forall r :: r in db.socials ==> r.memberId != ChooseId(body, now)
    ensures resp == Created(ChooseId(body, now))
    ensures db.Listing() == old(db.Listing()) + [Member(ChooseId(body, now), AsStored(body.details))]
  {
    var id := ChooseId(body, now);
    var budget := 1 + |body.details.skills| + |SocialRows(id, body.details.social)|;
    assert !IdTaken(db.members, id);
    ghost var ns, nl := SkillRows(id, body.details.skills), SocialRows(id, body.details.social);
    resp := db.Post(body, now, budget);
    assert ns[..Executed(budget, 1, |ns|)] == ns;
    assert nl[..Executed(budget, 1 + |ns|, |nl|)] == nl;
    PostThenGet(old(db.members), old(db.skills), old(db.socials), id, body.details);
  }
}
