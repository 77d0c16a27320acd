/**
 * The schema registry: the two JSON Schemas the extractor can target, as
 * data, and lookup by exact name (api/models/schemas.py).
 */
module Schemas {
  import opened Wrappers
  import opened Strings

  /** A JSON Schema "type": one type name, or a list of alternatives. */
  datatype TypeDecl = OneType(name: string) | AnyOf(names: seq<string>)

  /** A JSON Schema (sub)document: "type", "description", "properties" in
      declaration order, "required" and array "items". Absent keys are None or empty. */
  datatype Schema = Schema(
    typ: Option<TypeDecl>,
    description: Option<string>,
    properties: seq<(string, Schema)>,
    required: seq<string>,
    items: Option<Schema>)

  /** The property names of a schema, in declaration order. */
  function PropertyNames(s: Schema): (names: seq<string>)
    ensures |names| == |s.properties|
    ensures forall i :: 0 <= i < |names| ==> names[i] == s.properties[i].0
  {
    seq(|s.properties|, i requires 0 <= i < |s.properties| => s.properties[i].0)
  }

  /** The sub-schema declared for property `name` (the first one with that name). */
  function PropertySchema(s: Schema, name: string): Option<Schema> {
    FindProperty(s.properties, name)
  }

  function FindProperty(props: seq<(string, Schema)>, name: string): Option<Schema> {
    if |props| == 0 then None
    else if props[0].0 == name then Some(props[0].1)
    else FindProperty(props[1..], name)
  }

  /** Every name in "required" is a declared property. */
  predicate RequiredAreDeclared(s: Schema) {
    forall r :: r in s.required ==> r in PropertyNames(s)
  }

  /** Every top-level property declares a "type" and a "description". */
  predicate PropertiesDocumented(s: Schema) {
    forall i :: 0 <= i < |s.properties| ==>
      s.properties[i].1.typ.Some? && s.properties[i].1.description.Some?
  }

  // ---- building blocks of the two schemas ----

  const NullableString: TypeDecl := AnyOf(["string", "null"])
  const NullableAmount: TypeDecl := AnyOf(["string", "number", "null"])
  const NullableBoolean: TypeDecl := AnyOf(["boolean", "null"])
  const NullableInteger: TypeDecl := AnyOf(["integer", "null"])

  /** A scalar property: type and description only. */
  function Field(t: TypeDecl, description: string): Schema {
    Schema(Some(t), Some(description), [], [], None)
  }

  /** An array property whose elements follow `items`. */
  function ArrayOf(description: string, items: Schema): Schema {
    Schema(Some(OneType("array")), Some(description), [], [], Some(items))
  }

  /** An object schema without a description. */
  function ObjectOf(properties: seq<(string, Schema)>, required: seq<string>): Schema {
    Schema(Some(OneType("object")), None, properties, required, None)
  }

  const LenderPartyItem: Schema := ObjectOf(
    [ ("role", Field(NullableString, "The role of the party (e.g., 'Administrative Agent', 'Lender', 'Issuing Bank').")),
      ("name", Field(NullableString, "The full legal name of the party.")) ],
    ["role", "name"])

  const CreditAgreementSchema: Schema := ObjectOf(
    [ ("agreement_date", Field(NullableString, "The execution date or effective date of the credit agreement (Format as YYYY-MM-DD if possible, otherwise as stated in the text).")),
      ("borrower_names", ArrayOf("List containing the full legal names of all borrowers party to the agreement.",
          Field(NullableString, "Full legal name of a borrower."))),
      ("lender_parties", ArrayOf("List of key lender-side parties mentioned, including roles like Administrative Agent, Lenders, Issuing Banks, Swing Line Lender, etc.",
          LenderPartyItem)),
      ("total_commitment", Field(NullableAmount, "The total aggregate commitment amount under all credit facilities (Extract numeric value if clearly available, otherwise include currency symbol/text as string).")),
      ("facility_details", ArrayOf("Details of specific credit facilities (e.g., Revolving Credit Facility, Term Loan A Facility) mentioned in the agreement.",
          ObjectOf(
            [ ("facility_name", Field(NullableString, "Name or type of the facility.")),
              ("commitment_amount", Field(NullableAmount, "Commitment amount for this facility.")),
              ("maturity_date", Field(NullableString, "Maturity date for this facility.")) ],
            []))),
      ("interest_rates", ArrayOf("Interest rate information mentioned in the agreement.",
          ObjectOf(
            [ ("rate_type", Field(NullableString, "Type of interest rate (e.g., 'Base Rate', 'SOFR', 'Prime Rate').")),
              ("rate_value", Field(NullableAmount, "Interest rate value or formula.")),
              ("margin", Field(NullableAmount, "Margin or spread above the base rate.")) ],
            []))),
      ("governing_law", Field(NullableString, "The governing law specified in the agreement.")),
      ("guarantors", ArrayOf("List of guarantors mentioned in the agreement.",
          Field(NullableString, "Name of a guarantor."))),
      ("financial_covenants", ArrayOf("Financial covenants mentioned in the agreement.",
          ObjectOf(
            [ ("covenant_type", Field(NullableString, "Type of financial covenant.")),
              ("covenant_details", Field(NullableString, "Details of the covenant requirements.")) ],
            []))) ],
    ["agreement_date", "borrower_names", "lender_parties", "total_commitment", "governing_law"])

  const LoanBookingSheetSchema: Schema := ObjectOf(
    [ ("maturity_date", Field(NullableString, "The maturity date of the loan (Format as YYYY-MM-DD if possible, otherwise as stated).")),
      ("total_loan_facility_amount", Field(NullableAmount, "The total loan facility amount.")),
      ("withheld_amount", Field(NullableAmount, "Amount withheld from the loan facility.")),
      ("used_amount", Field(NullableAmount, "Amount of the loan facility that has been used.")),
      ("remaining_available_amount", Field(NullableAmount, "Remaining available amount in the loan facility.")),
      ("global_syndicated_amount", Field(NullableAmount, "Global syndicated amount for this facility.")),
      ("maximum_takedown_amount", Field(NullableAmount, "Maximum takedown amount allowed.")),
      ("prepayment_penalty", Field(NullableBoolean, "Indicates if there is a prepayment penalty for this loan.")),
      ("associated_fees", ArrayOf("List of fees associated with this facility.",
          ObjectOf(
            [ ("fee_type", Field(NullableString, "Type of fee.")),
              ("fee_amount", Field(NullableAmount, "Amount or rate of the fee.")) ],
            []))),
      ("base_balance_type", Field(NullableString, "Base balance type used to calculate fees.")),
      ("effective_date", Field(NullableString, "Effective date of the loan or fee (Format as YYYY-MM-DD if possible, otherwise as stated).")),
      ("expiration_date", Field(NullableString, "Expiration date of the loan or fee (Format as YYYY-MM-DD if possible, otherwise as stated).")),
      ("expiration_schedule", Field(NullableString, "Expiration schedule or timing.")),
      ("fee_accrual_start_date", Field(NullableString, "Date when the fee starts accruing.")),
      ("fee_calculation_method", Field(NullableString, "Method used to calculate the fee.")),
      ("accrual_rate", Field(NullableAmount, "Accrual rate for this facility.")),
      ("accrual_basis", Field(NullableString, "Accrual basis used (e.g., 30/360).")),
      ("percentage_applied", Field(NullableString, "Percentage applied and to what amount.")),
      ("low_high_indicator", Field(NullableString, "Low/high indicator meaning for this fee.")),
      ("pse_low_balance_threshold", Field(NullableAmount, "Low balance threshold defined by the Payment Settlement Entity.")),
      ("pse_high_balance_threshold", Field(NullableAmount, "High balance threshold defined by the Payment Settlement Entity.")),
      ("facility_low_balance_threshold", Field(NullableAmount, "Low balance threshold for this facility.")),
      ("facility_high_balance_threshold", Field(NullableAmount, "High balance threshold for this facility.")),
      ("next_due_date", Field(NullableString, "Next due date or accrue-to date.")),
      ("business_day_adjustment_rule", Field(NullableString, "Business day adjustment rule for the next due or accrue date.")),
      ("due_date_end_of_month", Field(NullableBoolean, "Indicates if the due date is set to the end of the month.")),
      ("calendar_used", Field(NullableString, "Calendar used for payment or accrual scheduling.")),
      ("pse_lead_days", Field(NullableInteger, "Number of lead days defined by the Payment Settlement Entity.")),
      ("pse_billing_frequency", Field(NullableString, "Billing frequency defined by the Payment Settlement Entity.")),
      ("pse_collection_instructions", Field(NullableString, "Collection instructions from the Payment Settlement Entity.")),
      ("pse_bill_format", Field(NullableString, "Bill format defined by the Payment Settlement Entity.")),
      ("pse_mailing_instructions", Field(NullableString, "Mailing instructions defined by the Payment Settlement Entity.")),
      ("billing_lead_days", Field(NullableInteger, "Number of lead days defined for billing.")),
      ("billing_frequency", Field(NullableString, "Billing frequency.")),
      ("bill_handling", Field(NullableString, "How the bill is handled.")),
      ("borrower_names", ArrayOf("List containing the full legal names of all borrowers.",
          Field(NullableString, "Full legal name of a borrower."))),
      ("lender_type", Field(NullableString, "Type of lender (e.g., 'Bank', 'Credit Union', 'Private Lender').")),
      ("governing_law", Field(NullableString, "The governing law for this loan facility.")) ],
    ["maturity_date", "total_loan_facility_amount", "borrower_names", "lender_type", "governing_law"])

  /** DOCUMENT_SCHEMAS: schema name to schema. */
  const DocumentSchemas: map<string, Schema> := map[
    "credit_agreement" := CreditAgreementSchema,
    "loan_booking_sheet" := LoanBookingSheetSchema]

  /** `get_schema(name)`: the registered schema for an exact name, None otherwise. */
  function GetSchema(name: string): (r: Option<Schema>)
    ensures r.Some? <==> name == "credit_agreement" || name == "loan_booking_sheet"
    ensures name == "credit_agreement" ==> r == Some(CreditAgreementSchema)
    ensures name == "loan_booking_sheet" ==> r == Some(LoanBookingSheetSchema)
  {
    if name in DocumentSchemas then Some(DocumentSchemas[name]) else None
  }

  /** The registry holds exactly the two schema names. */
  lemma RegistryNames()
    ensures DocumentSchemas.Keys == {"credit_agreement", "loan_booking_sheet"}
  {
  }

  /** The credit agreement requires declared properties only, and documents all of them. */
  lemma CreditAgreementWellFormed()
    ensures RequiredAreDeclared(CreditAgreementSchema)
    ensures PropertiesDocumented(CreditAgreementSchema)
  {
    CreditAgreementRequired();
    CreditAgreementDocumented();
  }

  /** Every name the credit agreement requires is one of its properties. */
  lemma CreditAgreementRequired()
    ensures RequiredAreDeclared(CreditAgreementSchema)
  {
    var names := PropertyNames(CreditAgreementSchema);
    assert names[0] == "agreement_date" && names[1] == "borrower_names";
    assert names[2] == "lender_parties" && names[3] == "total_commitment";
    assert names[6] == "governing_law";
  }

  /** Every credit-agreement property declares a type and a description. */
  lemma CreditAgreementDocumented()
    ensures PropertiesDocumented(CreditAgreementSchema)
  {
  }

  /** Every booking-sheet property declares a type and a description. */
  lemma LoanBookingSheetDocumented()
    ensures PropertiesDocumented(LoanBookingSheetSchema)
  {
  }

  /** The booking sheet requires exactly five fields, all declared, and documents every property. */
  lemma LoanBookingSheetWellFormed()
    ensures LoanBookingSheetSchema.required ==
      ["maturity_date", "total_loan_facility_amount", "borrower_names", "lender_type", "governing_law"]
    ensures RequiredAreDeclared(LoanBookingSheetSchema)
    ensures PropertiesDocumented(LoanBookingSheetSchema)
  {
    LoanBookingSheetDocumented();
    LoanBookingSheetRequired();
  }

  /** The booking sheet's five required names are among its properties. */
  lemma LoanBookingSheetRequired()
    ensures LoanBookingSheetSchema.required ==
      ["maturity_date", "total_loan_facility_amount", "borrower_names", "lender_type", "governing_law"]
    ensures RequiredAreDeclared(LoanBookingSheetSchema)
  {
    var props := LoanBookingSheetSchema.properties;
    var names := PropertyNames(LoanBookingSheetSchema);
    assert props[0].0 == "maturity_date" && props[1].0 == "total_loan_facility_amount";
    assert props[35].0 == "borrower_names" && props[36].0 == "lender_type";
    assert props[37].0 == "governing_law";
    assert names[0] == props[0].0 && names[1] == props[1].0;
    assert names[35] == props[35].0 && names[36] == props[36].0 && names[37] == props[37].0;
  }

  /** Every registered schema only requires declared properties and documents every property. */
  lemma RegisteredSchemasWellFormed(name: string)
    requires name in DocumentSchemas
    ensures RequiredAreDeclared(DocumentSchemas[name])
    ensures PropertiesDocumented(DocumentSchemas[name])
  {
    CreditAgreementWellFormed();
    LoanBookingSheetWellFormed();
  }

  /** Each lender party must carry a role and a name, both declared in the item schema. */
  lemma LenderPartyRequired()
    ensures PropertySchema(CreditAgreementSchema, "lender_parties") == Some(CreditAgreementSchema.properties[2].1)
    ensures CreditAgreementSchema.properties[2].1.items == Some(LenderPartyItem)
    ensures LenderPartyItem.required == ["role", "name"]
    ensures RequiredAreDeclared(LenderPartyItem)
  {
    var props := CreditAgreementSchema.properties;
    assert FindProperty(props, "lender_parties") == FindProperty(props[1..], "lender_parties");
    assert FindProperty(props[1..], "lender_parties") == FindProperty(props[2..], "lender_parties");
    var names := PropertyNames(LenderPartyItem);
    assert names[0] == "role" && names[1] == "name";
  }

  /** Python's `str()` of a "type" value, as an f-string renders it:
      a name as itself, a list as `['string', 'null']`. */
  function TypeText(t: TypeDecl): string {
    match t
    case OneType(n) => n
    case AnyOf(ns) => "[" + Join(seq(|ns|, i requires 0 <= i < |ns| => "'" + ns[i] + "'"), ", ") + "]"
  }

  /** `str(["string", "null"])`. */
  lemma NullableStringText()
    ensures TypeText(NullableString) == "['string', 'null']"
  {
    var names := ["string", "null"];
    var quoted := seq(|names|, i requires 0 <= i < |names| => "'" + names[i] + "'");
    assert |quoted| == 2 && quoted[0] == "'string'" && quoted[1] == "'null'";
    assert quoted[1..] == ["'null'"];
    assert Join(quoted, ", ") == "'string'" + ", " + "'null'";
  }
}
