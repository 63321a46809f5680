/** The dataset records shared by the parser, the validator and the graph view. */
module ProcessTypes {

  /** One activity of the process; the parser sets both `id` and `labelText` (the `label` of the original) to the activity name. */
  datatype ProcessNode = ProcessNode(id: string, labelText: string)

  /** A directed transition between two activities, weighted by how often it was observed. */
  datatype ProcessLink = ProcessLink(source: string, target: string, weight: int)

  /** Aggregate figures of a dataset. Durations and instants are integer milliseconds; the
      text formatting of the original (hours with one decimal, locale dates, "$…/mo") is not
      modelled, so the mean is kept as its total `totalDurationMs` over `cases` cases. */
  datatype Stats = Stats(
    events: int,
    cases: int,
    activities: int,
    medianDurationMs: int,
    totalDurationMs: int,
    startMs: int,
    endMs: int,
    efficiency: int,
    roiPerMonth: int)

  /** The deployment-frequency label of the DORA metrics. */
  datatype DeploymentFrequency = Alta | Media | Baja

  /** The DORA metrics block; the failure rate is kept as the number of failed cases. */
  datatype Dora = Dora(deploymentFrequency: DeploymentFrequency, failures: int)

  datatype Dataset = Dataset(
    name: string,
    nodes: seq<ProcessNode>,
    links: seq<ProcessLink>,
    stats: Stats,
    dora: Dora)
}
