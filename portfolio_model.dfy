/** The one entity of the API, the portfolio record, and the request payloads. */
module PortfolioModel {
  import opened Wrappers

  /**
   * A stored portfolio. The document client drops attributes whose value is
   * `undefined` before they reach the table, so an attribute the request
   * body left out is absent: `name`, `description` and `skills` are
   * `Option`s. No validation runs before the handlers, so even `name` may
   * be missing. Timestamps are the ISO-8601 strings the handlers are given.
   */
  datatype Portfolio = Portfolio(
    id: string,
    name: Option<string>,
    description: Option<string>,
    skills: Option<seq<string>>,
    createdAt: string,
    updatedAt: string)

  /** The body of a create request, trusted as-is by the handler: any field may be left out. */
  datatype CreatePayload = CreatePayload(
    name: Option<string>,
    description: Option<string>,
    skills: Option<seq<string>>)

  /** The body of an update request: every field may be left out. */
  datatype UpdatePayload = UpdatePayload(
    name: Option<string>,
    description: Option<string>,
    skills: Option<seq<string>>)

  /** The skills an item contributes to an aggregate: none when the attribute is absent. */
  function SkillsOf(p: Portfolio): seq<string> {
    p.skills.GetOr([])
  }
}
