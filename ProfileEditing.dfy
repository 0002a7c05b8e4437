/**
 * The trainer profile page: a saved profile (possibly none yet), a draft the
 * form edits, an edit-mode flag and the two inputs for a new specialization
 * and a new certification. Saving validates the draft; the list editors
 * append to or filter the draft's specializations and certifications.
 */
module ProfileEditing {
  import opened Domain
  import Text
  import Seqs

  /** The blank profile the form starts from when nothing is saved; `now` stands for both timestamps. */
  function DefaultProfile(now: int): (p: TrainerProfile)
    ensures p.id == "trainer-1" && p.name == "" && p.email == "" && p.bio == ""
    ensures p.specializations == [] && p.certifications == []
    ensures p.experience == Experience(0, 0, "")
    ensures p.social == Social("", "", "") && p.contactInfo == ContactInfo("", "", "")
    ensures p.createdAt == now && p.updatedAt == now
  {
    TrainerProfile("trainer-1", "", "", "", [], [],
      Experience(0, 0, ""), Social("", "", ""), ContactInfo("", "", ""), now, now)
  }

  /** The blank certification form, dated to the current year. */
  function EmptyDraft(year: int): (d: CertificationDraft)
    ensures d.name == "" && d.issuer == "" && d.year == year && !d.verified
  {
    CertificationDraft("", "", year, false)
  }

  /** Saving demands a name and an e-mail address. */
  predicate SaveAllowed(p: TrainerProfile) {
    p.name != "" && p.email != ""
  }

  /** The id a new certification receives: `cert-<timestamp>`. */
  function CertId(stamp: nat): string {
    "cert-" + Text.NatToString(stamp)
  }

  /** A certification made from the form and an id. */
  function FromDraft(d: CertificationDraft, id: string): (c: Certification)
    ensures c.id == id && c.name == d.name && c.issuer == d.issuer && c.year == d.year && c.verified == d.verified
  {
    Certification(id, d.name, d.issuer, d.year, d.verified)
  }

  /** A certification can be added once it has both a name and an issuer. */
  predicate CertificationComplete(d: CertificationDraft) {
    d.name != "" && d.issuer != ""
  }

  /** `certifications.filter(cert => cert.id !== id)`. */
  function WithoutCertification(certs: seq<Certification>, id: string): (r: seq<Certification>)
    ensures |r| <= |certs|
    ensures forall i :: 0 <= i < |r| ==> r[i].id != id
  {
    Seqs.FilterSpec(certs, (c: Certification) => c.id != id);
    Seqs.Filter(certs, (c: Certification) => c.id != id)
  }

  predicate HasCertId(certs: seq<Certification>, id: string) {
    exists i | 0 <= i < |certs| :: certs[i].id == id
  }

  /** Removing a certification drops every certification with that id and keeps the rest in order. */
  lemma WithoutCertificationSpec(certs: seq<Certification>, id: string)
    ensures forall c :: c in WithoutCertification(certs, id) <==> c in certs && c.id != id
    ensures Seqs.IsSubsequence(WithoutCertification(certs, id), certs)
    ensures |WithoutCertification(certs, id)| + Seqs.Count(certs, (c: Certification) => c.id == id) == |certs|
  {
    var keep := (c: Certification) => c.id != id;
    Seqs.FilterSpec(certs, keep);
    Seqs.FilterLength(certs, keep, (c: Certification) => c.id == id);
  }

  /** Removing a certification just added under a fresh id restores the list. */
  lemma RemoveUndoesAddCertification(certs: seq<Certification>, d: CertificationDraft, stamp: nat)
    requires !HasCertId(certs, CertId(stamp))
    ensures WithoutCertification(certs + [FromDraft(d, CertId(stamp))], CertId(stamp)) == certs
  {
    var keep := (c: Certification) => c.id != CertId(stamp);
    Seqs.FilterAppend(certs, [FromDraft(d, CertId(stamp))], keep);
    Seqs.FilterKeepsAll(certs, keep);
    assert Seqs.Filter([FromDraft(d, CertId(stamp))], keep) == [];
  }

  /** Removing the last position of a specialization list just extended restores it. */
  lemma RemoveUndoesAddSpecialization(specs: seq<string>, added: string)
    ensures Seqs.RemoveAt(specs + [added], |specs|) == specs
  {
    Seqs.RemoveAtSpec(specs + [added], |specs|);
    assert (specs + [added])[..|specs|] == specs;
  }

  /** Removing a position drops that element alone; the list is one shorter and keeps its order. */
  lemma RemoveSpecializationSpec(specs: seq<string>, index: int)
    requires 0 <= index < |specs|
    ensures var r := Seqs.RemoveAt(specs, index);
            |r| == |specs| - 1
            && (forall i :: 0 <= i < index ==> r[i] == specs[i])
            && (forall i :: index <= i < |r| ==> r[i] == specs[i + 1])
  {
    Seqs.RemoveAtSpec(specs, index);
  }

  /** Removing a position that does not exist changes nothing. */
  lemma RemoveSpecializationOutOfRange(specs: seq<string>, index: int)
    requires index < 0 || index >= |specs|
    ensures Seqs.RemoveAt(specs, index) == specs
  {
    Seqs.RemoveAtSpec(specs, index);
  }

  // `getInitials`: split on single spaces, take each segment's first
  // character (an empty segment gives `undefined`, which `join` prints as
  // nothing), upper-case, keep the first two characters.

  /** `s.split(' ')`: the segments between single spaces; "" splits into [""]. */
  function Split(s: string): (r: seq<string>)
    ensures |r| >= 1
  {
    if s == [] then [""]
    else if s[0] == ' ' then [""] + Split(s[1..])
    else
      var rest := Split(s[1..]);
      [[s[0]] + rest[0]] + rest[1..]
  }

  /** `segments.join(' ')`. */
  function Join(segments: seq<string>): string {
    if segments == [] then ""
    else if |segments| == 1 then segments[0]
    else segments[0] + " " + Join(segments[1..])
  }

  /** Splitting loses nothing: joining the segments back with spaces gives the string, and no segment holds a space. */
  lemma {:induction false} SplitJoin(s: string)
    ensures Join(Split(s)) == s
    ensures forall k :: 0 <= k < |Split(s)| ==> ' ' !in Split(s)[k]
  {
    if s != [] {
      SplitJoin(s[1..]);
      var rest := Split(s[1..]);
      if s[0] == ' ' {
        assert Split(s)[1..] == rest;
        assert s == [' '] + s[1..];
      } else {
        var seg := [s[0]] + rest[0];
        assert Split(s) == [seg] + rest[1..];
        if |rest| == 1 {
          assert Join(Split(s)) == seg;
        } else {
          assert ([seg] + rest[1..])[1..] == rest[1..];
          assert Join(Split(s)) == seg + " " + Join(rest[1..]);
          assert Join(rest) == rest[0] + " " + Join(rest[1..]);
        }
        assert s == [s[0]] + s[1..];
        forall k | 0 <= k < |Split(s)| ensures ' ' !in Split(s)[k] {
          if k > 0 {
            assert Split(s)[k] == rest[k];
          }
        }
      }
    }
  }

  /** `segment[0]` as `join` prints it: the first character, or nothing for an empty segment. */
  function FirstChar(segment: string): string {
    if segment == "" then "" else [segment[0]]
  }

  /** `segments.map(n => n[0]).join('')`. */
  function Firsts(segments: seq<string>): string {
    if segments == [] then "" else FirstChar(segments[0]) + Firsts(segments[1..])
  }

  /**
   * The characters of s that start a word: not a space, and either first in
   * s (when `atStart`) or right after a space.
   */
  function WordStarts(s: string, atStart: bool): (r: string)
    ensures |r| <= |s|
    ensures ' ' !in r
  {
    if s == [] then ""
    else (if atStart && s[0] != ' ' then [s[0]] else "") + WordStarts(s[1..], s[0] == ' ')
  }

  /** The first characters of the segments are exactly the word-start characters of the name. */
  lemma {:induction false} FirstsOfSplit(s: string)
    ensures Firsts(Split(s)) == WordStarts(s, true)
    ensures Firsts(Split(s)[1..]) == WordStarts(s, false)
  {
    if s != [] {
      FirstsOfSplit(s[1..]);
      var rest := Split(s[1..]);
      if s[0] == ' ' {
        assert Split(s)[1..] == rest;
        assert Firsts(Split(s)) == "" + Firsts(rest);
      } else {
        var seg := [s[0]] + rest[0];
        assert Split(s)[1..] == rest[1..];
        assert Split(s)[0] == seg;
        assert Firsts(Split(s)) == [s[0]] + Firsts(rest[1..]);
      }
    }
  }

  /** `getInitials(name)`. */
  function Initials(name: string): (r: string)
    ensures |r| <= 2
    ensures forall i :: 0 <= i < |r| ==> !Text.IsAsciiLower(r[i])
  {
    var all := Text.Upper(Firsts(Split(name)));
    if |all| <= 2 then all else all[..2]
  }

  /**
   * The initials are the upper-cased first characters of the first two
   * words: at most two characters, no lower-case ASCII letter, no space.
   */
  lemma InitialsSpec(name: string)
    ensures var words := WordStarts(name, true);
            Initials(name) == Text.Upper(if |words| <= 2 then words else words[..2])
    ensures |Initials(name)| <= 2
    ensures forall i :: 0 <= i < |Initials(name)| ==> !Text.IsAsciiLower(Initials(name)[i]) && Initials(name)[i] != ' '
  {
    FirstsOfSplit(name);
    var words := WordStarts(name, true);
    var taken := if |words| <= 2 then words else words[..2];
    assert Text.Upper(taken) == if |words| <= 2 then Text.Upper(words) else Text.Upper(words)[..2];
    forall i | 0 <= i < |Initials(name)| ensures Initials(name)[i] != ' ' {
      assert Initials(name)[i] == Text.ToUpperChar(words[i]);
      assert words[i] != ' ';
    }
  }

  /** The page's state. */
  class ProfileEditor {
    var profile: Option<TrainerProfile>
    var isEditing: bool
    var editedProfile: TrainerProfile
    var newSpecialization: string
    var newCertification: CertificationDraft

    /**
     * The page opens in edit mode exactly when no profile is saved; the draft
     * is the saved profile or the blank one.
     */
    constructor(saved: Option<TrainerProfile>, now: int, year: int)
      ensures profile == saved && isEditing == saved.None?
      ensures editedProfile == if saved.Some? then saved.value else DefaultProfile(now)
      ensures newSpecialization == "" && newCertification == EmptyDraft(year)
    {
      profile := saved;
      isEditing := saved.None?;
      editedProfile := saved.GetOr(DefaultProfile(now));
      newSpecialization := "";
      newCertification := EmptyDraft(year);
    }

    /** The "Edit Profile" button. */
    method StartEditing()
      modifies this
      ensures isEditing
      ensures profile == old(profile) && editedProfile == old(editedProfile)
      ensures newSpecialization == old(newSpecialization) && newCertification == old(newCertification)
    {
      isEditing := true;
    }

    /** Typing into the name field. */
    method SetName(name: string)
      modifies this
      ensures editedProfile == old(editedProfile).(name := name)
      ensures profile == old(profile) && isEditing == old(isEditing)
      ensures newSpecialization == old(newSpecialization) && newCertification == old(newCertification)
    {
      editedProfile := editedProfile.(name := name);
    }

    /** Typing into the e-mail field. */
    method SetEmail(email: string)
      modifies this
      ensures editedProfile == old(editedProfile).(email := email)
      ensures profile == old(profile) && isEditing == old(isEditing)
      ensures newSpecialization == old(newSpecialization) && newCertification == old(newCertification)
    {
      editedProfile := editedProfile.(email := email);
    }

    /**
     * `handleSave`: refused, changing nothing, when the name or the e-mail is
     * empty; otherwise the draft with a new `updatedAt` becomes the saved
     * profile and edit mode ends.
     */
    method Save(now: int) returns (saved: bool)
      modifies this
      ensures saved <==> SaveAllowed(old(editedProfile))
      ensures saved ==> profile == Some(old(editedProfile).(updatedAt := now)) && !isEditing
      ensures !saved ==> profile == old(profile) && isEditing == old(isEditing)
      ensures editedProfile == old(editedProfile)
      ensures newSpecialization == old(newSpecialization) && newCertification == old(newCertification)
    {
      if editedProfile.name == "" || editedProfile.email == "" {
        return false;
      }
      profile := Some(editedProfile.(updatedAt := now));
      isEditing := false;
      return true;
    }

    /** `handleCancel`: with a saved profile, discard the draft and leave edit mode; otherwise nothing happens. */
    method Cancel()
      modifies this
      ensures old(profile).Some? ==> editedProfile == old(profile).value && !isEditing
      ensures old(profile).None? ==> editedProfile == old(editedProfile) && isEditing == old(isEditing)
      ensures profile == old(profile)
      ensures newSpecialization == old(newSpecialization) && newCertification == old(newCertification)
    {
      if profile.Some? {
        editedProfile := profile.value;
        isEditing := false;
      }
    }

    /** Typing into the specialization input. */
    method SetNewSpecialization(text: string)
      modifies this
      ensures newSpecialization == text
      ensures profile == old(profile) && isEditing == old(isEditing) && editedProfile == old(editedProfile)
      ensures newCertification == old(newCertification)
    {
      newSpecialization := text;
    }

    /**
     * `addSpecialization`: a non-blank input is appended trimmed and the input
     * cleared; a blank one changes nothing.
     */
    method AddSpecialization()
      modifies this
      ensures Text.Trim(old(newSpecialization)) != "" ==>
        editedProfile == old(editedProfile).(specializations :=
          old(editedProfile).specializations + [Text.Trim(old(newSpecialization))])
        && newSpecialization == ""
      ensures Text.Trim(old(newSpecialization)) == "" ==>
        editedProfile == old(editedProfile) && newSpecialization == old(newSpecialization)
      ensures profile == old(profile) && isEditing == old(isEditing) && newCertification == old(newCertification)
    {
      var trimmed := Text.Trim(newSpecialization);
      if trimmed != "" {
        editedProfile := editedProfile.(specializations := editedProfile.specializations + [trimmed]);
        newSpecialization := "";
      }
    }

    /** `removeSpecialization(index)`: drop the specialization at that position, if there is one. */
    method RemoveSpecialization(index: int)
      modifies this
      ensures editedProfile == old(editedProfile).(specializations :=
        Seqs.RemoveAt(old(editedProfile).specializations, index))
      ensures profile == old(profile) && isEditing == old(isEditing)
      ensures newSpecialization == old(newSpecialization) && newCertification == old(newCertification)
    {
      editedProfile := editedProfile.(specializations := Seqs.RemoveAt(editedProfile.specializations, index));
    }

    /** Editing the certification form. */
    method SetNewCertification(d: CertificationDraft)
      modifies this
      ensures newCertification == d
      ensures profile == old(profile) && isEditing == old(isEditing) && editedProfile == old(editedProfile)
      ensures newSpecialization == old(newSpecialization)
    {
      newCertification := d;
    }

    /**
     * `addCertification`: a form with a name and an issuer is appended under
     * `cert-<stamp>` and the form is reset to the current year; an
     * incomplete form changes nothing.
     */
    method AddCertification(stamp: nat, year: int)
      modifies this
      ensures CertificationComplete(old(newCertification)) ==>
        editedProfile == old(editedProfile).(certifications :=
          old(editedProfile).certifications + [FromDraft(old(newCertification), CertId(stamp))])
        && newCertification == EmptyDraft(year)
      ensures !CertificationComplete(old(newCertification)) ==>
        editedProfile == old(editedProfile) && newCertification == old(newCertification)
      ensures profile == old(profile) && isEditing == old(isEditing) && newSpecialization == old(newSpecialization)
    {
      if newCertification.name != "" && newCertification.issuer != "" {
        var cert := Certification("cert-" + Text.NatToString(stamp), newCertification.name,
          newCertification.issuer, newCertification.year, newCertification.verified);
        editedProfile := editedProfile.(certifications := editedProfile.certifications + [cert]);
        newCertification := CertificationDraft("", "", year, false);
      }
    }

    /** `removeCertification(id)`: drop every certification with that id. */
    method RemoveCertification(id: string)
      modifies this
      ensures editedProfile == old(editedProfile).(certifications :=
        WithoutCertification(old(editedProfile).certifications, id))
      ensures profile == old(profile) && isEditing == old(isEditing)
      ensures newSpecialization == old(newSpecialization) && newCertification == old(newCertification)
    {
      editedProfile := editedProfile.(certifications := WithoutCertification(editedProfile.certifications, id));
    }
  }
}
