/** The state logic of the admin dashboard (`src/components/AdminDashboard.tsx`): the
    roster on display, the edit modal and its form, the skill input and the pending
    delete confirmation. Each React state hook is a field; each handler is a method
    that sets those fields and calls into the browser member store. */
module Dashboard {
  import opened Types
  import opened Text
  import opened Roster
  import opened MemberStore

  /** `emptyMember`: the form a new card starts from. Unlike the built-in roster it
      carries a department, the empty one. */
  function EmptyForm(): Details {
    Details("", "", "", Some(""), "", "", "", [], map[],
            "\U{1F468}\U{200D}\U{1F4BB}", "#87CEEB", "#5DADE2")
  }

  // ---------------------------------------------------------------------------
  // The skill list of the form.

  /** The skill list after `handleAddSkill`: the trimmed input is appended when it is
      not blank and not listed yet; otherwise the list stays as it is. */
  function WithSkill(skills: seq<string>, input: string): (r: seq<string>)
    ensures Trim(input) != [] ==> Trim(input) in r
    ensures AllSpace(input) ==> r == skills
    ensures Trim(input) in skills ==> r == skills
    ensures forall x :: x in r <==> x in skills || (x == Trim(input) && !AllSpace(input))
    ensures NoDuplicates(skills) ==> NoDuplicates(r)
    ensures r == skills || (|r| == |skills| + 1 && r[..|skills|] == skills)
  {
    TrimSpec(input);
    var t := Trim(input);
    if t != [] && t !in skills then skills + [t] else skills
  }

  /** Adding the same input twice adds it once. */
  lemma WithSkillIdempotent(skills: seq<string>, input: string)
    ensures WithSkill(WithSkill(skills, input), input) == WithSkill(skills, input)
  {
    var r := WithSkill(skills, input);
    if Trim(input) != [] {
      assert Trim(input) in r;
    }
  }

  /** The skill list after `handleRemoveSkill`: `filter(s => s !== skill)`. */
  function WithoutSkill(skills: seq<string>, skill: string): (r: seq<string>)
    ensures forall x :: x in r <==> x in skills && x != skill
    ensures |r| <= |skills|
    ensures skill !in skills ==> r == skills
  {
    if skills == [] then []
    else (if skills[0] == skill then [] else [skills[0]]) + WithoutSkill(skills[1..], skill)
  }

  /** Removal keeps the order of the remaining skills: it distributes over
      concatenation. */
  lemma {:induction false} WithoutSkillAppend(a: seq<string>, b: seq<string>, skill: string)
    ensures WithoutSkill(a + b, skill) == WithoutSkill(a, skill) + WithoutSkill(b, skill)
  {
    if a == [] {
      assert a + b == b;
    } else {
      assert (a + b)[0] == a[0];
      assert (a + b)[1..] == a[1..] + b;
      WithoutSkillAppend(a[1..], b, skill);
    }
  }

  /** Removal keeps a list free of duplicates. */
  lemma {:induction false} WithoutSkillDistinct(skills: seq<string>, skill: string)
    requires NoDuplicates(skills)
    ensures NoDuplicates(WithoutSkill(skills, skill))
  {
    if skills != [] {
      var tail := skills[1..];
      assert NoDuplicates(tail) by {
        forall i, j | 0 <= i < j < |tail| ensures tail[i] != tail[j] {
          assert tail[i] == skills[i + 1] && tail[j] == skills[j + 1];
        }
      }
      WithoutSkillDistinct(tail, skill);
      assert skills[0] !in tail;
    }
  }

  /** Adding a skill and then removing it restores a list that did not hold it. */
  lemma AddThenRemoveSkill(skills: seq<string>, input: string)
    requires Trim(input) !in skills
    ensures WithoutSkill(WithSkill(skills, input), Trim(input)) == skills
  {
    var t := Trim(input);
    if t != [] {
      WithoutSkillAppend(skills, [t], t);
      assert WithoutSkill([t], t) == [];
    }
  }

  /** The social links after typing `value` into the field of one platform:
      `value || undefined`. A cleared field leaves the key set to `undefined`, which
      every reader treats as absent (truthiness tests, and `JSON.stringify` on save),
      so the model drops the key. */
  function WithLink(social: map<Platform, string>, p: Platform, value: string): (r: map<Platform, string>)
    ensures HasUrl(r, p) <==> value != ""
    ensures HasUrl(r, p) ==> r[p] == value
    ensures forall q :: q != p ==> (q in r <==> q in social) && (q in r ==> r[q] == social[q])
  {
    if value == "" then social - {p} else social[p := value]
  }

  // ---------------------------------------------------------------------------
  // The component.

  class AdminDashboard {
    /** The browser member store the handlers call. */
    const store: Store
    var members: seq<Member>
    var isModalOpen: bool
    var editingMember: Option<Member>
    var formData: Details
    var skillInput: string
    var deleteConfirm: Option<string>

    /** In the browser the roster on display is what a fresh read of the store gives. */
    predicate Synced()
      reads this, store
    {
      store.inBrowser ==> members == store.Current()
    }

    /** Mounting: every hook at its initial value, then the effect loads the roster. */
    constructor (store: Store)
      modifies store
      ensures this.store == store
      ensures members == old(store.Current()) && members == store.Current()
      ensures !isModalOpen && editingMember == None && formData == EmptyForm()
      ensures skillInput == "" && deleteConfirm == None
      ensures store.blob == if store.inBrowser && (old(store.blob).Absent? || old(store.blob).Empty?)
                            then Stored(SeedRoster.TeamMembers()) else old(store.blob)
      ensures Synced()
    {
      this.store := store;
      members := [];
      isModalOpen := false;
      editingMember := None;
      formData := EmptyForm();
      skillInput := "";
      deleteConfirm := None;
      new;
      members := store.GetStoredMembers();
    }

    /** `handleOpenModal`: with a member, edit it, its card fields (everything but the
        id) copied into the form; without one, start from the empty form. */
    method OpenModal(member: Option<Member>)
      modifies this
      ensures isModalOpen && editingMember == member
      ensures formData == if member.Some? then member.value.details else EmptyForm()
      ensures members == old(members) && skillInput == old(skillInput)
      ensures deleteConfirm == old(deleteConfirm)
    {
      if member.Some? {
        editingMember := member;
        var m := member.value.details;
        formData := Details(m.name, m.nameEn, m.role, m.department, m.email, m.phone,
                            m.bio, m.skills, m.social, m.avatar, m.gradientFrom, m.gradientTo);
      } else {
        editingMember := None;
        formData := EmptyForm();
      }
      isModalOpen := true;
    }

    /** `handleCloseModal`: the modal closes and the form, the edited member and the
        skill input are reset. */
    method CloseModal()
      modifies this
      ensures !isModalOpen && editingMember == None && formData == EmptyForm() && skillInput == ""
      ensures members == old(members) && deleteConfirm == old(deleteConfirm)
    {
      isModalOpen := false;
      editingMember := None;
      formData := EmptyForm();
      skillInput := "";
    }

    /** `handleSubmit`: in edit mode every stored card with the edited id becomes the
        form under that id; otherwise the form is appended under an id generated from
        its name at `now`. The roster on display is the store's new list and the modal
        closes. */
    method Submit(now: nat)
      modifies this, store
      ensures old(editingMember).Some? ==>
                var id := old(editingMember).value.id;
                members == ReplaceById(old(store.Current()), id, Member(id, old(formData)))
      ensures old(editingMember).None? ==>
                members == old(store.Current()) + [Member(GenerateMemberId(old(formData).name, now), old(formData))]
      ensures store.blob == if store.inBrowser then Stored(members) else old(store.blob)
      ensures !isModalOpen && editingMember == None && formData == EmptyForm() && skillInput == ""
      ensures deleteConfirm == old(deleteConfirm)
      ensures Synced()
    {
      if editingMember.Some? {
        var id := editingMember.value.id;
        var updated := store.UpdateMember(id, Member(id, formData));
        members := updated;
      } else {
        var m := Member(GenerateMemberId(formData.name, now), formData);
        var updated := store.AddMember(m);
        members := updated;
      }
      CloseModal();
    }

    /** `handleDelete`: every stored card with the id is dropped, the roster on display
        is the store's new list and the confirmation closes. */
    method Delete(id: string)
      modifies this, store
      ensures members == RemoveById(old(store.Current()), id) && !HasId(members, id)
      ensures store.blob == if store.inBrowser then Stored(members) else old(store.blob)
      ensures deleteConfirm == None
      ensures isModalOpen == old(isModalOpen) && editingMember == old(editingMember)
      ensures formData == old(formData) && skillInput == old(skillInput)
      ensures Synced()
    {
      var updated := store.DeleteMember(id);
      RemoveByIdIdempotent(old(store.Current()), id);
      members := updated;
      deleteConfirm := None;
    }

    /** The delete button of a card asks for confirmation first. */
    method RequestDelete(id: string)
      modifies this
      ensures deleteConfirm == Some(id)
      ensures members == old(members) && isModalOpen == old(isModalOpen)
      ensures editingMember == old(editingMember) && formData == old(formData)
      ensures skillInput == old(skillInput)
    {
      deleteConfirm := Some(id);
    }

    /** Cancelling the confirmation. */
    method CancelDelete()
      modifies this
      ensures deleteConfirm == None
      ensures members == old(members) && isModalOpen == old(isModalOpen)
      ensures editingMember == old(editingMember) && formData == old(formData)
      ensures skillInput == old(skillInput)
    {
      deleteConfirm := None;
    }

    /** Typing into the skill field. */
    method TypeSkill(text: string)
      modifies this
      ensures skillInput == text
      ensures members == old(members) && isModalOpen == old(isModalOpen)
      ensures editingMember == old(editingMember) && formData == old(formData)
      ensures deleteConfirm == old(deleteConfirm)
    {
      skillInput := text;
    }

    /** Typing into the name field. */
    method EditName(name: string)
      modifies this
      ensures formData == old(formData).(name := name)
      ensures members == old(members) && isModalOpen == old(isModalOpen)
      ensures editingMember == old(editingMember) && skillInput == old(skillInput)
      ensures deleteConfirm == old(deleteConfirm)
    {
      formData := formData.(name := name);
    }

    /** Typing into the link field of a platform. */
    method EditLink(p: Platform, value: string)
      modifies this
      ensures formData == old(formData).(social := WithLink(old(formData).social, p, value))
      ensures members == old(members) && isModalOpen == old(isModalOpen)
      ensures editingMember == old(editingMember) && skillInput == old(skillInput)
      ensures deleteConfirm == old(deleteConfirm)
    {
      formData := formData.(social := WithLink(formData.social, p, value));
    }

    /** `handleAddSkill`: an accepted skill clears the input; a rejected one (blank or
        already listed) changes nothing. */
    method AddSkill()
      modifies this
      ensures formData == old(formData).(skills := WithSkill(old(formData).skills, old(skillInput)))
      ensures skillInput == if formData.skills == old(formData).skills then old(skillInput) else ""
      ensures members == old(members) && isModalOpen == old(isModalOpen)
      ensures editingMember == old(editingMember) && deleteConfirm == old(deleteConfirm)
    {
      var skills := WithSkill(formData.skills, skillInput);
      if skills != formData.skills {
        formData := formData.(skills := skills);
        skillInput := "";
      }
    }

    /** `handleRemoveSkill`. */
    method RemoveSkill(skill: string)
      modifies this
      ensures formData == old(formData).(skills := WithoutSkill(old(formData).skills, skill))
      ensures members == old(members) && isModalOpen == old(isModalOpen)
      ensures editingMember == old(editingMember) && skillInput == old(skillInput)
      ensures deleteConfirm == old(deleteConfirm)
    {
      formData := formData.(skills := WithoutSkill(formData.skills, skill));
    }
  }

  /** Opening a stored card for editing and submitting it unchanged leaves the roster as
      it was, provided no other card shares its id. */
  method EditWithoutChanges(store: Store, m: Member, now: nat) returns (dashboard: AdminDashboard)
    modifies store
    requires store.inBrowser
    requires m in store.Current()
    requires forall i :: 0 <= i < |store.Current()| && store.Current()[i].id == m.id ==> store.Current()[i] == m
    ensures dashboard.members == old(store.Current()) && store.Current() == old(store.Current())
    ensures store.blob == Stored(old(store.Current()))
  {
    dashboard := new AdminDashboard(store);
    dashboard.OpenModal(Some(m));
    dashboard.Submit(now);
    ReplaceBySelf(old(store.Current()), m);
  }

  /** A new card goes to the end of the roster under a generated id, and a later delete
      of that id removes it again when no earlier card carried the id. */
  method CreateThenDelete(store: Store, name: string, now: nat) returns (created: seq<Member>, dashboard: AdminDashboard)
    modifies store
    requires store.inBrowser
    requires !HasId(store.Current(), GenerateMemberId(name, now))
    ensures created == old(store.Current()) + [Member(GenerateMemberId(name, now), EmptyForm().(name := name))]
    ensures dashboard.members == old(store.Current()) && store.Current() == old(store.Current())
  {
    dashboard := new AdminDashboard(store);
    ghost var before := store.Current();
    dashboard.OpenModal(None);
    dashboard.EditName(name);
    dashboard.Submit(now);
    created := dashboard.members;
    var id := GenerateMemberId(name, now);
    dashboard.Delete(id);
    RemoveByIdAppend(before, [Member(id, EmptyForm().(name := name))], id);
    RemoveAbsentId(before, id);
  }
}
