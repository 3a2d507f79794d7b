/**
 * The addresses the camera window requests: the base URL (the public URL when
 * one is set, the server's direct address otherwise), the activation and
 * camera-list endpoints under it, the per-camera stream under the public URL,
 * and the deactivation endpoint, which always uses the direct address.
 */
module StreamUrls {
  import opened Wrappers
  import opened Decimal

  /** Python truthiness of an optional text: absent or empty counts as missing. */
  predicate Present(v: Option<string>) {
    v.Some? && v.value != ""
  }

  /** How an f-string renders an optional text: an absent value prints as `None`. */
  function Show(v: Option<string>): string {
    if v.Some? then v.value else "None"
  }

  /** `http://{ip}:{port}`. */
  function DirectUrl(ip: Option<string>, port: Option<string>): string {
    "http://" + Show(ip) + ":" + Show(port)
  }

  /**
   * The base of the activation and list requests: never empty, and a plain
   * `http://` address whenever no public URL is set.
   */
  function BaseUrl(publicUrl: Option<string>, ip: Option<string>, port: Option<string>): (r: string)
    ensures r != []
    ensures !Present(publicUrl) ==> |r| > 7 && r[..7] == "http://"
  {
    if Present(publicUrl) then publicUrl.value else DirectUrl(ip, port)
  }

  function ActivateUrl(base: string): string {
    base + "/activar-camara"
  }

  function ListUrl(base: string): string {
    base + "/listar-camaras"
  }

  /** `{public}/video/{index}`: the MJPEG stream of one camera, addressed by its position in the list. */
  function StreamUrl(publicUrl: string, camera: nat): string {
    publicUrl + "/video/" + Digits(camera)
  }

  /** `http://{ip}:{port}/desactivar-camara`, whatever public URL is set. */
  function DeactivateUrl(ip: Option<string>, port: Option<string>): string {
    DirectUrl(ip, port) + "/desactivar-camara"
  }

  /** The camera index can be read back from the end of its stream URL. */
  lemma StreamUrlCamera(publicUrl: string, camera: nat)
    ensures |StreamUrl(publicUrl, camera)| > |publicUrl| + 7
    ensures var tail := StreamUrl(publicUrl, camera)[|publicUrl| + 7..];
      (forall k :: 0 <= k < |tail| ==> IsDigit(tail[k])) && Value(tail) == camera
  {
    var url := StreamUrl(publicUrl, camera);
    assert url[|publicUrl| + 7..] == Digits(camera);
    ValueOfDigits(camera);
  }

  /** Different cameras are streamed from different URLs. */
  lemma StreamUrlInjective(publicUrl: string, i: nat, j: nat)
    requires StreamUrl(publicUrl, i) == StreamUrl(publicUrl, j)
    ensures i == j
  {
    StreamUrlCamera(publicUrl, i);
    StreamUrlCamera(publicUrl, j);
  }

  /** Activation and listing go to the same base, under different paths. */
  lemma ActivateAndListDiffer(base: string)
    ensures ActivateUrl(base)[..|base|] == base && ListUrl(base)[..|base|] == base
    ensures ActivateUrl(base) != ListUrl(base)
  {
    assert ActivateUrl(base)[|base| + 1] == 'a';
    assert ListUrl(base)[|base| + 1] == 'l';
  }

  /** With a public URL set, activation and listing reach it whatever the server's IP and port are. */
  lemma PublicBaseIgnoresServer(publicUrl: Option<string>, ip1: Option<string>, port1: Option<string>,
                                ip2: Option<string>, port2: Option<string>)
    requires Present(publicUrl)
    ensures BaseUrl(publicUrl, ip1, port1) == BaseUrl(publicUrl, ip2, port2)
    ensures ActivateUrl(BaseUrl(publicUrl, ip1, port1))[..|publicUrl.value|] == publicUrl.value
  {
  }

  /** An empty public URL is falsy, so it selects the direct address just as an absent one does. */
  lemma EmptyPublicUrlIsAbsent(ip: Option<string>, port: Option<string>)
    ensures BaseUrl(Some(""), ip, port) == BaseUrl(None, ip, port)
    ensures BaseUrl(None, ip, port)[..7] == "http://"
  {
  }

  /**
   * Deactivation never uses the public URL: with a public URL that is not a
   * plain `http://` address (an HTTPS tunnel, say), activation goes there while
   * deactivation goes to the direct address.
   */
  lemma DeactivationBypassesPublicUrl(publicUrl: Option<string>, ip: Option<string>, port: Option<string>)
    requires Present(publicUrl) && |publicUrl.value| >= 7 && publicUrl.value[..7] != "http://"
    ensures ActivateUrl(BaseUrl(publicUrl, ip, port))[..|publicUrl.value|] == publicUrl.value
    ensures DeactivateUrl(ip, port)[..7] == "http://"
    ensures ActivateUrl(BaseUrl(publicUrl, ip, port))[..7] != DeactivateUrl(ip, port)[..7]
  {
    assert ActivateUrl(BaseUrl(publicUrl, ip, port))[..7] == publicUrl.value[..7];
  }

  /** Without a public URL, deactivation goes to the server that was activated. */
  lemma DeactivationSharesDirectBase(publicUrl: Option<string>, ip: Option<string>, port: Option<string>)
    requires !Present(publicUrl)
    ensures var base := BaseUrl(publicUrl, ip, port);
      DeactivateUrl(ip, port)[..|base|] == base && ActivateUrl(base)[..|base|] == base
  {
  }
}
