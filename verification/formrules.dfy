/**
 * What the general validation rules mean for each of the four live schemas:
 * the exact `enum` literal sets, the optional paths, the defaults and the
 * trimmed paths, field by field.
 */
module FormRules {
  import opened Wrappers
  import opened Whitespace
  import opened Schemas
  import opened Forms
  import opened Validation

  /** One of the four schemas the server binds to a model. */
  predicate IsForm(s: Schema) {
    s == Sales || s == Buyer || s == Requirement || s == JobOpening
  }

  /** The live schemas meet the validator's assumptions. */
  lemma FormsWellFormed(s: Schema)
    requires IsForm(s)
    ensures WellFormed(s) && RequiredUndefaulted(s)
  {
    if s == Sales { SalesWellFormed(); }
    else if s == Buyer { BuyerWellFormed(); }
    else if s == Requirement { RequirementWellFormed(); }
    else { JobOpeningWellFormed(); }
  }

  /** No `enum` literal set of a live schema contains the empty string, so on
      these paths "not an allowed literal" and "empty or not allowed" coincide. */
  lemma ChoicesExcludeEmpty(v: string)
    ensures (v !in BcnChoices || v == "") <==> v !in {"Select", "yes", "no"}
    ensures (v !in YesNo || v == "") <==> v !in {"yes", "no"}
    ensures (v !in Urgencies || v == "") <==> v !in {"1 day", "1 week", "1 month"}
    ensures (v !in JobTypes || v == "") <==> v !in {"full_time", "part_time", "contract"}
  {
  }

  /** On every live schema, leaving out the key of any `required: true` path
      rejects the body and names that path as missing. */
  lemma FormsRejectMissingRequired(env: Env, now: Date, s: Schema, body: Body, i: nat)
    requires IsForm(s) && WellFormed(s)   // the second follows from the first: FormsWellFormed
    requires i < |s.fields| && s.fields[i].required
    requires s.fields[i].name !in body
    ensures Validate(env, now, s, body).Failure?
    ensures Violation(s.fields[i].name, Missing) in Validate(env, now, s, body).error
  {
    assert s.fields[i].dflt.NoDefault? by {
      FormsWellFormed(s);
    }
    MissingRequiredRejected(env, now, s, body, i);
  }

  /** Sales `contribution_to_BCN` accepts exactly 'Select', 'yes' and 'no'. */
  lemma SalesContributionExact(env: Env, now: Date, body: Body, v: string)
    requires Lookup(body, "contribution_to_BCN") == Some(Str(v))
    ensures PathRejected(Validate(env, now, Sales, body), "contribution_to_BCN")
        <==> v !in {"Select", "yes", "no"}
  {
    assert PathRejected(Validate(env, now, Sales, body), Sales.fields[4].name)
        <==> v !in BcnChoices || (Sales.fields[4].required && v == "") by {
      SalesWellFormed();
      EnumExact(env, now, Sales, body, 4, v);
    }
    ChoicesExcludeEmpty(v);
  }

  /** Buyer `recommendation`, when present, accepts exactly 'yes' and 'no'. */
  lemma BuyerRecommendationExact(env: Env, now: Date, body: Body, v: string)
    requires Lookup(body, "recommendation") == Some(Str(v))
    ensures PathRejected(Validate(env, now, Buyer, body), "recommendation") <==> v !in {"yes", "no"}
  {
    assert PathRejected(Validate(env, now, Buyer, body), Buyer.fields[8].name)
        <==> v !in YesNo || (Buyer.fields[8].required && v == "") by {
      BuyerWellFormed();
      EnumExact(env, now, Buyer, body, 8, v);
    }
    ChoicesExcludeEmpty(v);
  }

  /** Buyer `product_service_feedback` may be left out. */
  lemma FeedbackOptional(env: Env, now: Date, body: Body)
    requires "product_service_feedback" !in body
    ensures !PathRejected(Validate(env, now, Buyer, body), "product_service_feedback")
  {
  }

  /** Buyer `recommendation` may be left out. */
  lemma RecommendationOptional(env: Env, now: Date, body: Body)
    requires "recommendation" !in body
    ensures !PathRejected(Validate(env, now, Buyer, body), "recommendation")
  {
  }

  /** Requirement `urgency` accepts exactly '1 day', '1 week' and '1 month'. */
  lemma UrgencyExact(env: Env, now: Date, body: Body, v: string)
    requires Lookup(body, "urgency") == Some(Str(v))
    ensures PathRejected(Validate(env, now, Requirement, body), "urgency")
        <==> v !in {"1 day", "1 week", "1 month"}
  {
    assert PathRejected(Validate(env, now, Requirement, body), Requirement.fields[4].name)
        <==> v !in Urgencies || (Requirement.fields[4].required && v == "") by {
      RequirementWellFormed();
      EnumExact(env, now, Requirement, body, 4, v);
    }
    ChoicesExcludeEmpty(v);
  }

  /** `urgency` is not trimmed, so a padded literal such as ' 1 day' is rejected. */
  lemma PaddedUrgencyRejected(env: Env, now: Date, body: Body)
    requires Lookup(body, "urgency") == Some(Str(" 1 day"))
    ensures Validate(env, now, Requirement, body).Failure?
    ensures Violation("urgency", NotInEnum) in Validate(env, now, Requirement, body).error
  {
    RequirementWellFormed();
    assert Requirement.fields[4].name == "urgency";
    assert Check(env, now, Requirement.fields[4], body) == Bad(NotInEnum);
    ValidateFieldsReportsAll(env, now, Requirement.fields, body);
  }

  /** Requirement `specialMention` may be left out. */
  lemma SpecialMentionOptional(env: Env, now: Date, body: Body)
    requires "specialMention" !in body
    ensures !PathRejected(Validate(env, now, Requirement, body), "specialMention")
  {
  }

  /** Job opening `job_type` accepts exactly 'full_time', 'part_time' and 'contract'. */
  lemma JobTypeExact(env: Env, now: Date, body: Body, v: string)
    requires Lookup(body, "job_type") == Some(Str(v))
    ensures PathRejected(Validate(env, now, JobOpening, body), "job_type")
        <==> v !in {"full_time", "part_time", "contract"}
  {
    assert PathRejected(Validate(env, now, JobOpening, body), JobOpening.fields[5].name)
        <==> v !in JobTypes || (JobOpening.fields[5].required && v == "") by {
      JobOpeningWellFormed();
      EnumExact(env, now, JobOpening, body, 5, v);
    }
    ChoicesExcludeEmpty(v);
  }

  /** An accepted Sales body without `remarks` is stored with `remarks` = ''. */
  lemma SalesRemarksDefault(env: Env, now: Date, body: Body)
    requires "remarks" !in body
    ensures var r := Validate(env, now, Sales, body);
      r.Success? ==> "remarks" in r.value && r.value["remarks"] == Text("")
  {
    SalesWellFormed();
    assert Sales.fields[9].name == "remarks";
    if Validate(env, now, Sales, body).Success? {
      DefaultFillsAbsent(env, now, Sales, body, 9);
    }
  }

  /** An accepted job opening without `created_at` is stamped with the submission time. */
  lemma CreatedAtDefault(env: Env, now: Date, body: Body)
    requires "created_at" !in body
    ensures var r := Validate(env, now, JobOpening, body);
      r.Success? ==> "created_at" in r.value && r.value["created_at"] == When(now)
  {
    JobOpeningWellFormed();
    assert JobOpening.fields[8].name == "created_at";
    if Validate(env, now, JobOpening, body).Success? {
      DefaultFillsAbsent(env, now, JobOpening, body, 8);
    }
  }

  /** The `trim: true` paths of Requirement and JobOpeningForm. */
  const RequirementTrimmed: set<string> :=
    {"mobile_number", "name", "description", "city", "specialMention"}
  const JobOpeningTrimmed: set<string> :=
    {"company_name", "job_title", "job_description", "required_skills", "salary", "location"}

  /** An accepted Requirement or job opening stores every trimmed path without
      surrounding whitespace, as the trim of the submitted string. */
  lemma FormsStoreTrimmed(env: Env, now: Date, s: Schema, body: Body, name: string, v: string)
    requires (s == Requirement && name in RequirementTrimmed)
          || (s == JobOpening && name in JobOpeningTrimmed)
    requires Lookup(body, name) == Some(Str(v))
    ensures WellFormed(s)   // stated first: the clauses below call `Validate`, which needs it
    ensures var r := Validate(env, now, s, body);
      r.Success? ==> name in r.value && r.value[name] == Text(Trim(v)) && IsTrimmed(r.value[name].s)
  {
    if s == Requirement { RequirementWellFormed(); } else { JobOpeningWellFormed(); }
    var i := TrimmedIndex(s, name);
    if Validate(env, now, s, body).Success? {
      TrimmedOnStore(env, now, s, body, i, v);
    }
  }

  /** A trimmed path of Requirement or JobOpeningForm holding the string `v`
      is rejected exactly when it is required and `v` is empty or only
      whitespace; the optional `specialMention` is never rejected. */
  lemma FormsTrimmedBlankRejected(env: Env, now: Date, s: Schema, body: Body, name: string, v: string)
    requires (s == Requirement && name in RequirementTrimmed)
          || (s == JobOpening && name in JobOpeningTrimmed)
    requires Lookup(body, name) == Some(Str(v))
    ensures WellFormed(s)   // stated first: the clauses below call `Validate`, which needs it
    ensures PathRejected(Validate(env, now, s, body), name) <==> name != "specialMention" && AllSpace(v)
  {
    if s == Requirement { RequirementWellFormed(); } else { JobOpeningWellFormed(); }
    var i := TrimmedIndex(s, name);
    PresentStringExact(env, now, s, body, i, v);
    BlankIffTrimEmpty(v);
  }

  /** `created_at: ''` on a job opening is no reason for rejection and is
      stored as `null`: the key is present, so `Date.now` does not apply. */
  lemma EmptyCreatedAtStoredNull(env: Env, now: Date, body: Body)
    requires Lookup(body, "created_at") == Some(Str(""))
    ensures var r := Validate(env, now, JobOpening, body);
      && !PathRejected(r, "created_at")
      && (r.Success? ==> "created_at" in r.value && r.value["created_at"] == Null)
  {
    JobOpeningWellFormed();
    assert JobOpening.fields[8].name == "created_at";
    EmptyCastsToNull(env, now, JobOpening, body, 8);
  }

  /** `application_deadline: ''` rejects a job opening: the required Date path
      holds `null`, so the deadline is reported missing. */
  lemma EmptyDeadlineRejected(env: Env, now: Date, body: Body)
    requires Lookup(body, "application_deadline") == Some(Str(""))
    ensures PathRejected(Validate(env, now, JobOpening, body), "application_deadline")
  {
    JobOpeningWellFormed();
    assert JobOpening.fields[7].name == "application_deadline";
    EmptyCastsToNull(env, now, JobOpening, body, 7);
  }

  /** Where a trimmed path of Requirement or JobOpeningForm is declared. */
  function TrimmedIndex(s: Schema, name: string): (i: nat)
    requires (s == Requirement && name in RequirementTrimmed)
          || (s == JobOpening && name in JobOpeningTrimmed)
    ensures i < |s.fields| && s.fields[i].name == name && s.fields[i].trim
    ensures s.fields[i].kind == StringKind && s.fields[i].allowed.None?
    ensures s.fields[i].required <==> name != "specialMention"
  {
    if s == Requirement then
      if name == "mobile_number" then 0
      else if name == "name" then 1
      else if name == "description" then 2
      else if name == "city" then 3
      else 5
    else
      if name == "company_name" then 0
      else if name == "job_title" then 1
      else if name == "job_description" then 2
      else if name == "required_skills" then 3
      else if name == "salary" then 4
      else 6
  }
}
