/** The third-party image API, seen through PebblelyService: one call per
    request, answered with the base64 `data` of the response or failing with
    a PebblelyException. What the API answers is a fixed function of the
    request; the HTTP transport is not modelled. */
module Vendor {
  import opened Wrappers
  import opened Errors
  import opened Dtos

  datatype VendorRequest =
    | Upscale(upscaleDto: UpscaleDto)
    | RemoveBackground(imageDto: ImageDto)
    | CreateBackground(createBackgroundDto: CreateBackgroundDto)
    | Inpaint(inpaintDto: InpaintDto)

  /** The message PebblelyService wraps a failure of each endpoint in. */
  function ErrorMessage(request: VendorRequest): string {
    match request
    case Upscale(_) => "Pebblely API error - Upscale"
    case RemoveBackground(_) => "Pebblely API error - Remove Background"
    case CreateBackground(_) => "Pebblely API error - Create Background"
    case Inpaint(_) => "Pebblely API error - Inpaint"
  }

  /** The outcome of one call, given what the API answers. */
  function Respond(reply: VendorRequest -> Option<string>, request: VendorRequest): (r: Result<string, Error>)
    ensures r.Success? <==> reply(request).Some?
    ensures r.Success? ==> r.value == reply(request).value
    ensures r.Failure? ==> r.error == PebblelyException(ErrorMessage(request))
  {
    match reply(request)
    case Some(data) => Success(data)
    case None => Failure(PebblelyException(ErrorMessage(request)))
  }

  class PebblelyService {
    /** What the API answers to each request (None: the call fails). */
    const reply: VendorRequest -> Option<string>
    /** Every request sent so far, oldest first. */
    var calls: seq<VendorRequest>

    constructor (reply: VendorRequest -> Option<string>)
      ensures this.reply == reply && calls == []
    {
      this.reply := reply;
      calls := [];
    }

    /** One synchronous call: upscale, removeBackground, createBackground or
        inpaint, according to the request. */
    method Call(request: VendorRequest) returns (r: Result<string, Error>)
      modifies this
      ensures calls == old(calls) + [request]
      ensures r == Respond(reply, request)
    {
      calls := calls + [request];
      match reply(request)
      case Some(data) =>
        r := Success(data);
      case None =>
        r := Failure(PebblelyException(ErrorMessage(request)));
    }
  }
}
