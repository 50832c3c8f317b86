/** The network layer tells individual, group and broadcast frames apart (src/network_layer.rs). */
module Networks {
  import opened Frames

  datatype NetworkServiceInd =
    | DataIndividual(frame: Frame)
    | DataGroup(frame: Frame)
    | DataBroadcast(frame: Frame)
    | DataSystemBroadcast(frame: Frame)

  /** `receive`, for a data frame from the data link layer. */
  function Receive(f: Frame): NetworkServiceInd {
    match f.Destination()
    case Individual(_) => DataIndividual(f)
    case Group(a) => if a == 0 then DataBroadcast(f) else DataGroup(f)
  }
}
