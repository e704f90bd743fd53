/** What the browser client and the serverless proxies both know about the
    detection service on the Hugging Face Space: its routes and fetch's
    notion of a successful response. */
module Backend {
  /** `response.ok`: a status in the 2xx range. */
  predicate IsOk(status: nat) {
    200 <= status <= 299
  }

  /** Detection results as JSON. */
  const DetectRoute: string := "/img_object_detection_to_json"
  /** The picture with the detections drawn on it. */
  const AnnotateRoute: string := "/img_object_detection_to_img"
  /** The service's own health probe. */
  const HealthRoute: string := "/healthcheck"
}
