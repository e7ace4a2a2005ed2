/**
 * The catalog of visa routes and the documents each route requires, in the
 * order the checklist lists them.
 */
module Catalog {
  import opened Wrappers

  const Routes: seq<string> := [
    "Spouse Visa", "Skilled Worker", "Student Visa", "Visit Visa",
    "Sponsor Licence", "EUSS", "Settlement/ILR"
  ]

  const VisaTypes: map<string, seq<string>> := map[
    "Spouse Visa" := [
      "Valid Passport",
      "Marriage Certificate",
      "Financial Evidence (6 months bank statements)",
      "Accommodation Proof (tenancy agreement/mortgage)",
      "English Language Certificate",
      "Relationship Evidence (photos, correspondence)"
    ],
    "Skilled Worker" := [
      "Valid Passport",
      "Certificate of Sponsorship",
      "Job Offer Letter",
      "Payslips (3-6 months)",
      "Qualifications/Degree Certificates",
      "English Language Certificate"
    ],
    "Student Visa" := [
      "Valid Passport",
      "CAS (Confirmation of Acceptance for Studies)",
      "Financial Evidence (tuition + living costs)",
      "Academic Transcripts",
      "ATAS Certificate (if required)",
      "Tuberculosis Test Certificate"
    ],
    "Visit Visa" := [
      "Valid Passport",
      "Financial Evidence (bank statements)",
      "Accommodation Details",
      "Travel Itinerary",
      "Employment Letter"
    ],
    "Sponsor Licence" := [
      "Company Registration Documents",
      "Proof of Trading",
      "HR Systems Documentation",
      "Compliance Documents",
      "Key Personnel Details"
    ],
    "EUSS" := [
      "Valid Passport/ID",
      "Proof of Residence in UK",
      "Evidence of Relationship (if applicable)",
      "Comprehensive Sickness Insurance (if required)"
    ],
    "Settlement/ILR" := [
      "Valid Passport",
      "Life in the UK Test Certificate",
      "English Language Certificate",
      "Continuous Residence Evidence",
      "P60/Payslips",
      "Council Tax Bills"
    ]
  ]

  /** `visaTypes[visaType]`: the route's documents, or `None` (`undefined`) for
      a route the catalog does not list. */
  function RequiredDocuments(visaType: string): (r: Option<seq<string>>)
    ensures r.Some? <==> visaType in Routes
    ensures r.Some? ==> r.value != [] && r.value == VisaTypes[visaType]
  {
    CatalogShape();
    if visaType in VisaTypes then Some(VisaTypes[visaType]) else None
  }

  /** The catalog lists exactly the seven routes, each with a non-empty list. */
  lemma CatalogShape()
    ensures |Routes| == 7
    ensures forall i, j :: 0 <= i < j < |Routes| ==> Routes[i] != Routes[j]
    ensures VisaTypes.Keys == set r | r in Routes
    ensures forall r :: r in VisaTypes ==> |VisaTypes[r]| >= 4
  {
  }
}
