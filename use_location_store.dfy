/**
 * The location store (store/useLocationStore.ts): the last known position, the
 * last error message and a loading flag, driven by one asynchronous request that
 * asks for permission and then for the current position.
 *
 * The two platform calls are not modelled; what they answered (or that they
 * threw) is given as input.
 */
module UseLocationStore {

  import opened Wrappers

  /** A position fix as the platform reports it. */
  datatype LocationObject = LocationObject(latitude: real, longitude: real, timestamp: int)

  /** The answer of the permission request: a status string, or an exception. */
  datatype PermissionResponse = Status(status: string) | PermissionThrew

  /** The answer of the position request: a fix, or an exception. */
  datatype PositionResponse = Position(fix: LocationObject) | PositionThrew

  const GrantedStatus: string := "granted"
  const DeniedMessage: string := "Permission to access location was denied"
  const FailedMessage: string := "Failed to get location"

  /** The store's state as one value. */
  datatype LocationState = LocationState(location: Option<LocationObject>, errorMsg: Option<string>, isLoading: bool)

  const InitialState: LocationState := LocationState(None, None, false)

  /** Whether the request ends on its success path. */
  predicate Succeeds(permission: PermissionResponse, position: PositionResponse)
  {
    permission == Status(GrantedStatus) && position.Position?
  }

  /** The first update of `requestLocation`, made before either platform call. */
  function Started(s: LocationState): (t: LocationState)
    ensures t.isLoading
    ensures t.location == s.location && t.errorMsg == s.errorMsg
  {
    s.(isLoading := true)
  }

  /**
   * The update that ends `requestLocation`, by the path it takes: permission not
   * granted, position obtained, or an exception from either call (caught).
   */
  function Completed(s: LocationState, permission: PermissionResponse, position: PositionResponse): (t: LocationState)
    ensures !t.isLoading
    ensures t.errorMsg == None <==> Succeeds(permission, position)
    ensures Succeeds(permission, position) ==> t.location == Some(position.fix)
    ensures !Succeeds(permission, position) ==> t.location == s.location
    ensures permission.Status? && permission.status != GrantedStatus ==> t.errorMsg == Some(DeniedMessage)
    ensures permission.PermissionThrew? ==> t.errorMsg == Some(FailedMessage)
    ensures permission == Status(GrantedStatus) && position.PositionThrew? ==> t.errorMsg == Some(FailedMessage)
  {
    match permission
    case PermissionThrew =>
      s.(errorMsg := Some(FailedMessage), isLoading := false)
    case Status(status) =>
      if status != GrantedStatus then
        s.(errorMsg := Some(DeniedMessage), isLoading := false)
      else
        match position
        case Position(fix) => s.(location := Some(fix), isLoading := false, errorMsg := None)
        case PositionThrew => s.(errorMsg := Some(FailedMessage), isLoading := false)
  }

  /**
   * Whatever the platform answers, a completed request is not loading, and its
   * error message is either absent (success) or one of the two fixed texts.
   */
  lemma CompletedMessages(s: LocationState, permission: PermissionResponse, position: PositionResponse)
    ensures var t := Completed(Started(s), permission, position);
      && !t.isLoading
      && (t.errorMsg == None || t.errorMsg == Some(DeniedMessage) || t.errorMsg == Some(FailedMessage))
  {
  }

  /** A request that does not succeed keeps the previous position, so a stale fix stays available. */
  lemma FailureKeepsLocation(s: LocationState, permission: PermissionResponse, position: PositionResponse)
    requires !Succeeds(permission, position)
    ensures Completed(Started(s), permission, position).location == s.location
  {
  }

  /** The store object; `requestLocation` replaces its fields in two steps. */
  class LocationStore {
    var location: Option<LocationObject>
    var errorMsg: Option<string>
    var isLoading: bool

    function State(): LocationState
      reads this
    {
      LocationState(location, errorMsg, isLoading)
    }

    constructor ()
      ensures State() == InitialState
    {
      location, errorMsg, isLoading := None, None, false;
    }

    /**
     * `requestLocation`. `published` lists the states the store takes, in order:
     * the loading state that observers see while the platform calls are pending,
     * then the final one. The position is asked for only once permission is granted.
     */
    method RequestLocation(permission: PermissionResponse, position: PositionResponse)
      returns (published: seq<LocationState>, positionRequested: bool)
      modifies this
      ensures published == [Started(old(State())), State()]
      ensures State() == Completed(Started(old(State())), permission, position)
      ensures positionRequested <==> permission == Status(GrantedStatus)
    {
      isLoading := true;
      published := [State()];
      positionRequested := false;
      match permission {
        case PermissionThrew =>
          errorMsg, isLoading := Some(FailedMessage), false;
        case Status(status) =>
          if status != GrantedStatus {
            errorMsg, isLoading := Some(DeniedMessage), false;
          } else {
            positionRequested := true;
            match position {
              case Position(fix) =>
                location, isLoading, errorMsg := Some(fix), false, None;
              case PositionThrew =>
                errorMsg, isLoading := Some(FailedMessage), false;
            }
          }
      }
      published := published + [State()];
    }
  }
}
