/** The PDP configuration document and the endpoint paths. */
module Metadata {

  datatype Endpoint = Evaluation | Evaluations | SearchSubject | SearchResource | SearchAction

  function PathOf(e: Endpoint): (p: string)
    ensures 21 <= |p| <= 26 && p[..6] == "/acces"
  {
    match e
    case Evaluation => "/access/v1/evaluation"
    case Evaluations => "/access/v1/evaluations"
    case SearchSubject => "/access/v1/search/subject"
    case SearchResource => "/access/v1/search/resource"
    case SearchAction => "/access/v1/search/action"
  }

  /** An endpoint field that is the empty string is omitted on the wire. */
  datatype Document = Document(
    policyDecisionPoint: string,
    evaluation: string, evaluations: string,
    searchSubject: string, searchResource: string, searchAction: string,
    capabilities: seq<string>)

  function Advertised(m: Document, e: Endpoint): string {
    match e
    case Evaluation => m.evaluation
    case Evaluations => m.evaluations
    case SearchSubject => m.searchSubject
    case SearchResource => m.searchResource
    case SearchAction => m.searchAction
  }
}
