/**
 * The four live schemas of the intake server, as plain data:
 * SalesSchema, BuyerSchema, RequirementSchema and JobOpeningFormSchema.
 */
module Forms {
  import opened Wrappers
  import opened Schemas

  const BcnChoices: set<string> := {"Select", "yes", "no"}
  const YesNo: set<string> := {"yes", "no"}
  const Urgencies: set<string> := {"1 day", "1 week", "1 month"}
  const JobTypes: set<string> := {"full_time", "part_time", "contract"}

  const Sales: Schema := Schema([
    Field("company_name", StringKind, true, false, None, NoDefault),
    Field("mobile_number", StringKind, true, false, None, NoDefault),
    Field("transaction_amount", NumberKind, true, false, None, NoDefault),
    Field("date_of_transaction", DateKind, true, false, None, NoDefault),
    Field("contribution_to_BCN", StringKind, true, false, Some(BcnChoices), NoDefault),
    Field("product_service_sold", StringKind, true, false, None, NoDefault),
    Field("city", StringKind, true, false, None, NoDefault),
    Field("buyer_name", StringKind, true, false, None, NoDefault),
    Field("buyer_mobile_number", StringKind, true, false, None, NoDefault),
    Field("remarks", StringKind, false, false, None, Literal(""))
  ])

  const Buyer: Schema := Schema([
    Field("name", StringKind, true, false, None, NoDefault),
    Field("mobile_number", StringKind, true, false, None, NoDefault),
    Field("city", StringKind, true, false, None, NoDefault),
    Field("service_product_description", StringKind, true, false, None, NoDefault),
    Field("transaction_date", DateKind, true, false, None, NoDefault),
    Field("seller_name", StringKind, true, false, None, NoDefault),
    Field("seller_mobile", StringKind, true, false, None, NoDefault),
    Field("product_service_feedback", StringKind, false, false, None, NoDefault),
    Field("recommendation", StringKind, false, false, Some(YesNo), NoDefault)
  ])

  const Requirement: Schema := Schema([
    Field("mobile_number", StringKind, true, true, None, NoDefault),
    Field("name", StringKind, true, true, None, NoDefault),
    Field("description", StringKind, true, true, None, NoDefault),
    Field("city", StringKind, true, true, None, NoDefault),
    Field("urgency", StringKind, true, false, Some(Urgencies), NoDefault),
    Field("specialMention", StringKind, false, true, None, NoDefault)
  ])

  const JobOpening: Schema := Schema([
    Field("company_name", StringKind, true, true, None, NoDefault),
    Field("job_title", StringKind, true, true, None, NoDefault),
    Field("job_description", StringKind, true, true, None, NoDefault),
    Field("required_skills", StringKind, true, true, None, NoDefault),
    Field("salary", StringKind, true, true, None, NoDefault),
    Field("job_type", StringKind, true, false, Some(JobTypes), NoDefault),
    Field("location", StringKind, true, true, None, NoDefault),
    Field("application_deadline", DateKind, true, false, None, NoDefault),
    Field("created_at", DateKind, false, false, None, Now)
  ])

  /** No `required: true` path of the schema has a default. */
  predicate RequiredUndefaulted(s: Schema) {
    forall i :: 0 <= i < |s.fields| && s.fields[i].required ==> s.fields[i].dflt.NoDefault?
  }

  /** Each live schema is well formed (distinct path names, options that fit
      the type) and declares no default on a required path. */
  lemma SalesWellFormed()
    ensures WellFormed(Sales) && RequiredUndefaulted(Sales)
  {
  }

  lemma BuyerWellFormed()
    ensures WellFormed(Buyer) && RequiredUndefaulted(Buyer)
  {
  }

  lemma RequirementWellFormed()
    ensures WellFormed(Requirement) && RequiredUndefaulted(Requirement)
  {
  }

  lemma JobOpeningWellFormed()
    ensures WellFormed(JobOpening) && RequiredUndefaulted(JobOpening)
  {
  }
}
