/** The job posting form (`PostJob`): the posted record is the form with its required
    skills normalised, which is the only place the listing's skills are lower-cased
    before the server's exact matching sees them. */
module PostJob {
  import opened Records
  import opened Text
  import ServerRules

  datatype JobForm = JobForm(
    title: string,
    description: string,
    location: string,
    category: string,
    requiredSkills: string,
    payment: string,
    duration: string)

  /** `processedData`: one required skill per comma-separated piece of the form's text, in
      order, each trimmed and lower-cased (empty pieces included); every other field as typed. */
  function ProcessedJob(form: JobForm): (r: JobSpec)
    ensures |r.requiredSkills| == Occurrences(form.requiredSkills, ',') + 1
    ensures forall i :: 0 <= i < |r.requiredSkills| ==>
      r.requiredSkills[i] == NormalizeSkill(Split(form.requiredSkills, ',')[i])
    ensures forall i :: 0 <= i < |r.requiredSkills| ==> Trimmed(r.requiredSkills[i]) && HasNoUpper(r.requiredSkills[i])
    ensures r.title == form.title && r.description == form.description && r.location == form.location &&
            r.category == form.category && r.payment == form.payment && r.duration == form.duration
  {
    NormalizeSkillsPieces(form.requiredSkills);
    JobSpec(form.title, form.description, form.location, form.category,
            NormalizeSkills(form.requiredSkills), form.payment, form.duration)
  }

  /** Empty pieces are kept: "a,,b" posts the skills "a", "" and "b". */
  lemma EmptyPiecesKept(form: JobForm)
    requires form.requiredSkills == "a,,b"
    ensures var r := ProcessedJob(form).requiredSkills; |r| == 3 && r[0] == "a" && r[1] == "" && r[2] == "b"
  {
    var parts := ["a", "", "b"];
    assert Join(parts, ",") == "a,,b" by {
      assert parts[1..] == ["", "b"];
      assert ["", "b"][1..] == ["b"];
    }
    assert Trimmed("a") && HasNoUpper("a") && Trimmed("b") && HasNoUpper("b") && Trimmed("") && HasNoUpper("");
    assert ',' !in "a" && ',' !in "b";
    NormalizeCommaJoin(parts);
    var r := NormalizeSkills(form.requiredSkills);
    assert r == parts;
    assert ProcessedJob(form).requiredSkills == r;
  }

  /** The server compares skills exactly: a listing requiring "React" does not match a
      seeker whose skill is "react". */
  lemma ServerMatchIsCaseSensitive()
    ensures !ServerRules.SharesSkill(["React"], ["react"])
  {
    assert "React"[0] != "react"[0];
  }

  /** Because both forms normalise, a posted skill and a registered skill that differ only in
      case or surrounding whitespace do meet in the server's matching. */
  lemma NormalisedSkillsMeet(jobText: string, seekerText: string, i: nat, k: nat)
    requires i < |Split(jobText, ',')| && k < |Split(seekerText, ',')|
    requires SameIgnoringCase(Trim(Split(jobText, ',')[i]), Trim(Split(seekerText, ',')[k]))
    ensures ServerRules.SharesSkill(NormalizeSkills(jobText), NormalizeSkills(seekerText))
  {
    CaseAndSpacingInsensitive(Split(jobText, ',')[i], Split(seekerText, ',')[k]);
    NormalizeSkillsPieces(jobText);
    NormalizeSkillsPieces(seekerText);
    var s := NormalizeSkills(jobText)[i];
    assert s == NormalizeSkills(seekerText)[k];
    assert s in NormalizeSkills(jobText) && s in NormalizeSkills(seekerText);
  }
}
