/** The member aggregate shared by the browser store, the admin dashboard and the
    members API: a team member's business card with its skills and social links. */
module Types {

  datatype Option<T> = None | Some(value: T)

  /** The four social platforms a card can link to. */
  datatype Platform = GitHub | LinkedIn | Twitter | Instagram

  /** The fixed order in which the members API writes social links. */
  const Platforms: seq<Platform> := [GitHub, LinkedIn, Twitter, Instagram]

  /** Everything on a card except its id (the admin form edits exactly this).
      `department` is optional: the browser-side roster has no such field, and the
      members API neither stores nor returns it, so at run time the key is absent. */
  datatype Details = Details(
    name: string,
    nameEn: string,
    role: string,
    department: Option<string>,
    email: string,
    phone: string,
    bio: string,
    skills: seq<string>,
    social: map<Platform, string>,
    avatar: string,
    gradientFrom: string,
    gradientTo: string)

  datatype Member = Member(id: string, details: Details)

  /** JavaScript truthiness of an optional social URL: present and not the empty string. */
  predicate HasUrl(social: map<Platform, string>, p: Platform) {
    p in social && social[p] != ""
  }

  /** The social map with its falsy entries dropped. */
  function Truthy(social: map<Platform, string>): (r: map<Platform, string>)
    ensures forall p :: p in r <==> HasUrl(social, p)
    ensures forall p :: p in r ==> p in social && r[p] == social[p]
  {
    map p | p in social && social[p] != "" :: social[p]
  }

  /** `xs` holds no value twice. */
  predicate NoDuplicates<T(==)>(xs: seq<T>) {
    forall i, j :: 0 <= i < j < |xs| ==> xs[i] != xs[j]
  }
}
