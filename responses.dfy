/**
 * How a controller action or a screen method of the builder and admin
 * panels ends, as far as the state and the client can tell.
 */
module Responses {
  datatype Outcome =
    | Invalid    // the validator failed: redirect back with the errors, nothing written
    | Forbidden  // `abort(403)`: nothing written
    | NotFound   // `findOrFail` or route-model binding found no row: 404, nothing written
    | Refused    // the action returned early with an error toast: nothing written
    | Failed     // an exception escaped: 500, with whatever was written before it
    | Done
}
