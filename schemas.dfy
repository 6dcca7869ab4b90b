/**
 * The request schemas of the alert service: what a caller supplies to create
 * an alert, to update one, and to create a platform row. Pydantic defaults are
 * the constructors' default parameter values.
 */
module Schemas {
  import opened Wrappers

  /**
   * The fields of a new alert. It carries no id, timestamp, status or
   * resolution time: the store supplies those. `reach` and `engagement`
   * default to 0 and `recommendedResponse` to None when omitted.
   */
  datatype AlertCreate = AlertCreate(
    customer: string,
    platform: string,
    sentiment: string,
    urgency: string,
    message: string,
    reach: int := 0,
    engagement: int := 0,
    recommendedResponse: Option<string> := None)

  /**
   * A partial update of an alert. `status` is required, so every update sets
   * it; `responseText` is optional and None when omitted.
   */
  datatype AlertUpdate = AlertUpdate(status: string, responseText: Option<string> := None)

  /** The fields of a new platform aggregate row. */
  datatype PlatformCreate = PlatformCreate(name: string, mentions: int, sentimentAvg: real)

  /** An alert created from the required fields alone has the schema's defaults. */
  lemma AlertCreateDefaults(customer: string, platform: string, sentiment: string, urgency: string, message: string)
    ensures var a := AlertCreate(customer, platform, sentiment, urgency, message);
      a.reach == 0 && a.engagement == 0 && a.recommendedResponse == None
  {
  }

  /** An update that gives only a status leaves the response text unset. */
  lemma AlertUpdateDefaults(status: string)
    ensures AlertUpdate(status).responseText == None && AlertUpdate(status).status == status
  {
  }
}
