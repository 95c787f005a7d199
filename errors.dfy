/** The exceptions that can end the processing of one task. */
module Errors {

  datatype Error =
    | IndexError      // a per-box list of the detector output is shorter than the list of boxes
    | KeyError        // a class index or a class name is missing from a lookup table
    | ModelNotLoaded  // the detection model was not loaded
    | DownloadFailed  // the object storage could not deliver the video
    | VideoNotOpened  // the downloaded file could not be opened as a video
    | TypeError       // a call passed a keyword argument the callee does not accept
}
