/** Enumerations that several parts of the program store as text. */
module Enums {
  import opened Wrappers

  datatype Category = NetworkFootprint | TechnologyStack | HumanLayer | LeakedData

  datatype Confidence = Low | Medium | High

  function CategoryText(c: Category): string {
    match c
    case NetworkFootprint => "network_footprint"
    case TechnologyStack => "technology_stack"
    case HumanLayer => "human_layer"
    case LeakedData => "leaked_data"
  }

  function ParseCategory(text: string): Option<Category> {
    if text == "network_footprint" then Some(NetworkFootprint)
    else if text == "technology_stack" then Some(TechnologyStack)
    else if text == "human_layer" then Some(HumanLayer)
    else if text == "leaked_data" then Some(LeakedData)
    else None
  }

  function ConfidenceText(c: Confidence): string {
    match c
    case Low => "low"
    case Medium => "medium"
    case High => "high"
  }

  function ParseConfidence(text: string): Option<Confidence> {
    if text == "low" then Some(Low)
    else if text == "medium" then Some(Medium)
    else if text == "high" then Some(High)
    else None
  }
}
