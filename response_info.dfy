/** The status badge of the response summary (`components/ResponseInfo.tsx`).
    Its banding differs from the one of the response view: 3xx is yellow
    and 4xx red here. */
module ResponseInfo {
  import ResponseView

  /** `getStatusClass` of the badge: 2xx green, 3xx yellow, 4xx and 5xx
      and above red, anything below 200 (such as the status 0 of a failed
      send) gray. */
  function StatusClass(status: int): (r: string)
    ensures r == ResponseView.GreenClass <==> 200 <= status < 300
    ensures r == ResponseView.YellowClass <==> 300 <= status < 400
    ensures r == ResponseView.RedClass <==> status >= 400
    ensures r == ResponseView.GrayClass <==> status < 200
  {
    if 200 <= status < 300 then ResponseView.GreenClass
    else if 300 <= status < 400 then ResponseView.YellowClass
    else if 400 <= status < 500 then ResponseView.RedClass
    else if status >= 500 then ResponseView.RedClass
    else ResponseView.GrayClass
  }

  /** The badge and the response view agree on every status except the
      3xx and 4xx ranges. */
  lemma BandingsDiffer(status: int)
    ensures StatusClass(status) == ResponseView.GetStatusClass(status) <==> !(300 <= status < 500)
  {
  }
}
