/** The error codes of the service and its client. */
module ErrorCodes {
  const ERRCODE_SUCCESS := 0
  const ERRCODE_MEMORY_ERROR := -1
  const ERRCODE_INVALID_PARAM := 401
  const ERRCODE_NOT_SUPPORTED := 801
  const ERRCODE_SERVICE_UNAVAILABLE := 3301000
  const ERRCODE_LOCATING_FAIL := 3301200
  const ERRCODE_GEOFENCE_FAIL := 3301600
  const ERRCODE_GEOFENCE_EXCEED_MAXIMUM := 3301601
  const ERRCODE_GEOFENCE_INCORRECT_ID := 3301602
}
