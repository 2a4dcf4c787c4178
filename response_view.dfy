/** The response formatter and tab state (`hooks/useResponseView.ts`):
    which tab is shown, how a response body is classified for rendering
    (content-type header first, then sniffing the data), what is rendered
    for each class, and the colour band of a status code. */
module ResponseView {
  import opened Wrappers
  import opened JsText
  import opened JsValues
  import opened Types

  /** The active tab and the response tab to come back to. */
  class TabState {
    var activeTab: ResponseTab
    var lastResponseTab: ResponseTab

    constructor ()
      ensures activeTab == ParamsTab && lastResponseTab == BodyTab
    {
      activeTab := ParamsTab;
      lastResponseTab := BodyTab;
    }

    /** Always shows `tab`; remembers it only when it is a response tab. */
    method SwitchToTab(tab: ResponseTab, isResponse: bool)
      modifies this
      ensures activeTab == tab
      ensures lastResponseTab == if isResponse then tab else old(lastResponseTab)
    {
      if isResponse {
        lastResponseTab := tab;
      }
      activeTab := tab;
    }
  }

  /** `/^data:image\/(png|jpeg|gif|webp);base64,/`. */
  predicate IsImageDataUrl(s: string) {
    StartsWith(s, "data:image/png;base64,") || StartsWith(s, "data:image/jpeg;base64,")
    || StartsWith(s, "data:image/gif;base64,") || StartsWith(s, "data:image/webp;base64,")
  }

  /** `headers['content-type']?.toLowerCase() || ''`. */
  function LowerContentType(headers: map<string, string>): string {
    if "content-type" in headers then ToLower(headers["content-type"]) else ""
  }

  /** The class a (lower-cased) content type decides on its own, if any. */
  function HeaderType(ct: string): (r: Option<ResponseType>)
    ensures r == Some(ImageType) <==> Contains(ct, "image/")
    ensures r == Some(HtmlType) <==> !Contains(ct, "image/") && Contains(ct, "text/html")
    ensures r == Some(JsonType) <==> !Contains(ct, "image/") && !Contains(ct, "text/html") && Contains(ct, "application/json")
    ensures r == Some(TextType) <==> !Contains(ct, "image/") && !Contains(ct, "text/html") && !Contains(ct, "application/json")
                                     && Contains(ct, "text/")
    ensures r != Some(PdfType)
  {
    if Contains(ct, "image/") then Some(ImageType)
    else if Contains(ct, "text/html") then Some(HtmlType)
    else if Contains(ct, "application/json") then Some(JsonType)
    else if Contains(ct, "text/") then Some(TextType)
    else None
  }

  predicate LooksLikeMarkup(s: string) {
    StartsWith(s, "<") && EndsWith(s, ">")
  }

  /** The fallback when the header decides nothing. */
  function SniffType(data: JsValue, parseJson: string -> Result<JsValue>): (t: ResponseType)
    ensures !data.Str? ==> t == TextType
    ensures t == ImageType <==> data.Str? && IsImageDataUrl(data.s)
    ensures t == JsonType ==> data.Str? && parseJson(data.s).Ok?
    ensures t != PdfType
  {
    if data.Str? then
      if IsImageDataUrl(data.s) then ImageType
      else if LooksLikeMarkup(data.s) then HtmlType
      else if parseJson(data.s).Ok? then JsonType
      else TextType
    else TextType
  }

  /** `detectResponseType`. */
  function DetectResponseType(data: JsValue, headers: map<string, string>, parseJson: string -> Result<JsValue>): (t: ResponseType)
    ensures HeaderType(LowerContentType(headers)).Some? ==> t == HeaderType(LowerContentType(headers)).value
    ensures HeaderType(LowerContentType(headers)).None? ==> t == SniffType(data, parseJson)
    ensures t != PdfType
  {
    match HeaderType(LowerContentType(headers))
    case Some(t) => t
    case None => SniffType(data, parseJson)
  }

  /** What the panel renders: a class and the content to render. */
  datatype Formatted = Formatted(rtype: ResponseType, content: JsValue)

  /** `formatResponse`. `base64Of` stands for `btoa` of the bytes of a
      non-string body. A JSON-classified string that does not parse makes
      `JSON.parse` throw, which is the error result. */
  function FormatResponse(data: JsValue, headers: map<string, string>, parseJson: string -> Result<JsValue>,
                          base64Of: JsValue -> string): (r: Result<Formatted>)
    ensures IsNullish(data) ==> r == Ok(Formatted(TextType, Str("")))
    ensures r.Err? ==> data.Str? && parseJson(data.s).Err? && DetectResponseType(data, headers, parseJson) == JsonType
    ensures r.Ok? && r.value.rtype == ImageType ==> r.value.content.Str?
    ensures r.Ok? ==> r.value.rtype != PdfType
  {
    if IsNullish(data) then Ok(Formatted(TextType, Str("")))
    else
      match DetectResponseType(data, headers, parseJson)
      case ImageType =>
        if data.Str? && IsImageDataUrl(data.s) then Ok(Formatted(ImageType, data))
        else
          var contentType := if "content-type" in headers && headers["content-type"] != "" then headers["content-type"] else "image/png";
          var base64Data := if data.Str? then data.s else base64Of(data);
          Ok(Formatted(ImageType, Str("data:" + contentType + ";base64," + base64Data)))
      case HtmlType => Ok(Formatted(HtmlType, data))
      case JsonType =>
        if data.Str? then
          match parseJson(data.s)
          case Ok(v) => Ok(Formatted(JsonType, v))
          case Err(e) => Err(e)
        else Ok(Formatted(JsonType, data))
      case _ => Ok(Formatted(TextType, Str(StringOf(data))))
  }

  const GreenClass := "bg-green-100 text-green-800"
  const BlueClass := "bg-blue-100 text-blue-800"
  const YellowClass := "bg-yellow-100 text-yellow-800"
  const RedClass := "bg-red-100 text-red-800"
  const GrayClass := "bg-gray-100 text-gray-800"

  /** `getStatusClass`: 2xx green, 3xx blue, 4xx yellow, 5xx and above
      red, anything below 200 gray. */
  function GetStatusClass(status: int): (r: string)
    ensures r == GreenClass <==> 200 <= status < 300
    ensures r == BlueClass <==> 300 <= status < 400
    ensures r == YellowClass <==> 400 <= status < 500
    ensures r == RedClass <==> status >= 500
    ensures r == GrayClass <==> status < 200
  {
    if 200 <= status < 300 then GreenClass
    else if 300 <= status < 400 then BlueClass
    else if 400 <= status < 500 then YellowClass
    else if status >= 500 then RedClass
    else GrayClass
  }

  // ---------------------------------------------------------------------
  // Properties of the classification

  /** A recognised content type decides alone: the data does not matter. */
  lemma HeaderDecidesAlone(d1: JsValue, d2: JsValue, headers: map<string, string>, parseJson: string -> Result<JsValue>)
    requires HeaderType(LowerContentType(headers)).Some?
    ensures DetectResponseType(d1, headers, parseJson) == DetectResponseType(d2, headers, parseJson)
                                                       == HeaderType(LowerContentType(headers)).value
  {
  }

  /** An image data URL never looks like markup. */
  lemma DataUrlIsNotMarkup(s: string)
    ensures IsImageDataUrl(s) ==> !LooksLikeMarkup(s)
  {
    if IsImageDataUrl(s) {
      assert s[0] == 'd';
    }
  }

  /** Without a recognised header, a string is an image exactly when it is
      an image data URL, html exactly when it starts with `<` and ends with
      `>`, json exactly when it is neither of those and parses; anything
      else, and every non-string, is text. */
  lemma SniffOrder(data: JsValue, headers: map<string, string>, parseJson: string -> Result<JsValue>)
    requires HeaderType(LowerContentType(headers)).None?
    ensures !data.Str? ==> DetectResponseType(data, headers, parseJson) == TextType
    ensures data.Str? ==>
              (DetectResponseType(data, headers, parseJson) == ImageType <==> IsImageDataUrl(data.s))
              && (DetectResponseType(data, headers, parseJson) == HtmlType <==> LooksLikeMarkup(data.s))
              && (DetectResponseType(data, headers, parseJson) == JsonType
                  <==> !IsImageDataUrl(data.s) && !LooksLikeMarkup(data.s) && parseJson(data.s).Ok?)
              && (DetectResponseType(data, headers, parseJson) == TextType
                  <==> !IsImageDataUrl(data.s) && !LooksLikeMarkup(data.s) && parseJson(data.s).Err?)
  {
    if data.Str? {
      DataUrlIsNotMarkup(data.s);
    }
  }

  /** `null` and `undefined` always format as empty text. */
  lemma NullishIsEmptyText(data: JsValue, headers: map<string, string>, parseJson: string -> Result<JsValue>,
                           base64Of: JsValue -> string)
    requires IsNullish(data)
    ensures FormatResponse(data, headers, parseJson, base64Of) == Ok(Formatted(TextType, Str("")))
  {
  }

  /** The rendered class is the detected one; formatting fails exactly
      when a string classified as json (necessarily by its header) does
      not parse. */
  lemma FormatFollowsDetection(data: JsValue, headers: map<string, string>, parseJson: string -> Result<JsValue>,
                               base64Of: JsValue -> string)
    requires !IsNullish(data)
    ensures FormatResponse(data, headers, parseJson, base64Of).Ok? ==>
              FormatResponse(data, headers, parseJson, base64Of).value.rtype == DetectResponseType(data, headers, parseJson)
    ensures FormatResponse(data, headers, parseJson, base64Of).Err? <==>
              DetectResponseType(data, headers, parseJson) == JsonType && data.Str? && parseJson(data.s).Err?
    ensures FormatResponse(data, headers, parseJson, base64Of).Err? ==> HeaderType(LowerContentType(headers)) == Some(JsonType)
  {
  }

  /** What is rendered for the non-image classes: html and non-string
      json values unchanged, a json string parsed, text as `String(data)`. */
  lemma FormatContent(data: JsValue, headers: map<string, string>, parseJson: string -> Result<JsValue>,
                      base64Of: JsValue -> string)
    requires !IsNullish(data) && FormatResponse(data, headers, parseJson, base64Of).Ok?
    ensures var f := FormatResponse(data, headers, parseJson, base64Of).value;
            (f.rtype == HtmlType ==> f.content == data)
            && (f.rtype == JsonType && !data.Str? ==> f.content == data)
            && (f.rtype == JsonType && data.Str? ==> parseJson(data.s) == Ok(f.content))
            && (f.rtype == TextType ==> f.content == Str(StringOf(data)))
  {
  }

  /** An image is always rendered as a data URL: a given image data URL
      unchanged, any other string prefixed with its content type, or
      image/png when there is none. */
  lemma FormatImage(data: JsValue, headers: map<string, string>, parseJson: string -> Result<JsValue>,
                    base64Of: JsValue -> string)
    requires !IsNullish(data) && DetectResponseType(data, headers, parseJson) == ImageType
    ensures var f := FormatResponse(data, headers, parseJson, base64Of);
            f.Ok? && f.value.rtype == ImageType && f.value.content.Str? && StartsWith(f.value.content.s, "data:")
            && (data.Str? && IsImageDataUrl(data.s) ==> f.value.content == data)
            && (data.Str? && !IsImageDataUrl(data.s) ==>
                  f.value.content == Str("data:" + (if "content-type" in headers && headers["content-type"] != ""
                                                    then headers["content-type"] else "image/png")
                                         + ";base64," + data.s))
  {
    if data.Str? && IsImageDataUrl(data.s) {
      var s := data.s;
      if StartsWith(s, "data:image/png;base64,") {
        StartsWithTrans(s, "data:image/png;base64,", "data:");
      } else if StartsWith(s, "data:image/jpeg;base64,") {
        StartsWithTrans(s, "data:image/jpeg;base64,", "data:");
      } else if StartsWith(s, "data:image/gif;base64,") {
        StartsWithTrans(s, "data:image/gif;base64,", "data:");
      } else {
        StartsWithTrans(s, "data:image/webp;base64,", "data:");
      }
    }
  }
}
