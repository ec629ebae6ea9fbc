/**
  The Gemini lookup: the Fedora URL that the lookup service maps a Drupal
  file UUID to.
 */
module Gemini {
  import opened HarvestTypes

  /** `getFedoraUrl` once its request is answered: the body's `fedora` field on
      status 200; `false` (here `None`) on 404 and on every other status. */
  function FedoraUrl(response: LookupResponse): (url: Option<string>)
    ensures url.Some? <==> response.status == 200
    ensures url.Some? ==> url.value == response.fedora
  {
    if response.status == 200 then Some(response.fedora)
    else if response.status == 404 then None
    else None
  }

  /** Whether the lookup produced something `strlen` finds non-empty. */
  predicate Resolved(url: Option<string>)
  {
    url.Some? && |url.value| > 0
  }
}
