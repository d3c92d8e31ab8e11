/** An HTTP reply: a status, an ordered header list and a body, with its wire
    form as a sequence of buffers and the canned replies for each status. */
module HttpResponse {
  import opened Basics

  /** `Response::status_type`. `Unlisted(code)` stands for a value of the
      enumeration type that is none of the named enumerators, which the
      `default:` branches handle. Its `code` is meant to be a number no named
      status carries (200, 201, 202, 204, 300, 301, 302, 304, 400, 401, 403,
      404, 500, 501, 502, 503): a cast of one of those numbers is the named
      enumerator, never `Unlisted`. */
  datatype StatusType =
    | Ok | Created | Accepted | NoContent | MultipleChoices | MovedPermanently
    | MovedTemporarily | NotModified | BadRequest | Unauthorized | Forbidden
    | NotFound | InternalServerError | NotImplemented | BadGateway | ServiceUnavailable
    | Unlisted(code: int)

  const CRLF: string := "\r\n"
  const NAME_VALUE_SEPARATOR: string := ": "

  /** `status_strings::to_buffer(status)`: the status line. */
  function StatusLine(status: StatusType): string
  {
    match status
    case Ok => "HTTP/1.0 200 OK\r\n"
    case Created => "HTTP/1.0 201 Created\r\n"
    case Accepted => "HTTP/1.0 202 Accepted\r\n"
    case NoContent => "HTTP/1.0 204 No Content\r\n"
    case MultipleChoices => "HTTP/1.0 300 Multiple Choices\r\n"
    case MovedPermanently => "HTTP/1.0 301 Moved Permanently\r\n"
    case MovedTemporarily => "HTTP/1.0 302 Moved Temporarily\r\n"
    case NotModified => "HTTP/1.0 304 Not Modified\r\n"
    case BadRequest => "HTTP/1.0 400 Bad Request\r\n"
    case Unauthorized => "HTTP/1.0 401 Unauthorized\r\n"
    case Forbidden => "HTTP/1.0 403 Forbidden\r\n"
    case NotFound => "HTTP/1.0 404 Not Found\r\n"
    case InternalServerError => "HTTP/1.0 500 Internal Server Error\r\n"
    case NotImplemented => "HTTP/1.0 501 Not Implemented\r\n"
    case BadGateway => "HTTP/1.0 502 Bad Gateway\r\n"
    case ServiceUnavailable => "HTTP/1.0 503 Service Unavailable\r\n"
    case Unlisted(_) => "HTTP/1.0 500 Internal Server Error\r\n"
  }

  /** `stock_replies::to_string(status)`: the canned HTML body, empty for 200 OK. */
  function StockBody(status: StatusType): (body: string)
    ensures body == "" <==> status == Ok
  {
    match status
    case Ok => ""
    case Created => StockPage("Created", "201 Created")
    case Accepted => StockPage("Accepted", "202 Accepted")
    case NoContent => StockPage("No Content", "204 Content")
    case MultipleChoices => StockPage("Multiple Choices", "300 Multiple Choices")
    case MovedPermanently => StockPage("Moved Permanently", "301 Moved Permanently")
    case MovedTemporarily => StockPage("Moved Temporarily", "302 Moved Temporarily")
    case NotModified => StockPage("Not Modified", "304 Not Modified")
    case BadRequest => StockPage("Bad Request", "400 Bad Request")
    case Unauthorized => StockPage("Unauthorized", "401 Unauthorized")
    case Forbidden => StockPage("Forbidden", "403 Forbidden")
    case NotFound => StockPage("Not Found", "404 Not Found")
    case InternalServerError => StockPage("Internal Server Error", "500 Internal Server Error")
    case NotImplemented => StockPage("Not Implemented", "501 Not Implemented")
    case BadGateway => StockPage("Bad Gateway", "502 Bad Gateway")
    case ServiceUnavailable => StockPage("Service Unavailable", "503 Service Unavailable")
    case Unlisted(_) => StockPage("Internal Server Error", "500 Internal Server Error")
  }

  /** The layout every non-empty stock body shares: a title and a heading. */
  function StockPage(title: string, heading: string): (page: string)
    ensures |page| >= |title| + |heading|
  {
    "<html>" + "<head><title>" + title + "</title></head>"
    + "<body><h1>" + heading + "</h1></body>" + "</html>"
  }

  /** Every status line is an HTTP/1.0 line ending in CRLF. */
  lemma StatusLineForm(status: StatusType)
    ensures var line := StatusLine(status);
            |line| > 11 && line[..9] == "HTTP/1.0 " && line[|line| - 2..] == CRLF
  {
  }

  /** A status outside the list is answered as 500 Internal Server Error. */
  lemma UnlistedIsInternalError(code: int)
    ensures StatusLine(Unlisted(code)) == StatusLine(InternalServerError)
    ensures StockBody(Unlisted(code)) == StockBody(InternalServerError)
  {
  }

  /** `std::to_string` of a size: its decimal digits. */
  function NatToDecimal(n: nat): (s: string)
    ensures |s| >= 1 && IsDigits(s)
    ensures s[0] == '0' <==> n == 0
    decreases n
  {
    if n < 10 then [Digit(n)] else NatToDecimal(n / 10) + [Digit(n % 10)]
  }

  function Digit(d: nat): (c: char)
    requires d < 10
    ensures '0' <= c <= '9' && c as int - '0' as int == d
  {
    ('0' as int + d) as char
  }

  predicate IsDigits(s: string)
  {
    forall i :: 0 <= i < |s| ==> '0' <= s[i] <= '9'
  }

  /** The number a string of decimal digits denotes. */
  function DecimalValue(s: string): nat
    requires IsDigits(s)
  {
    if s == [] then 0 else DecimalValue(s[..|s| - 1]) * 10 + (s[|s| - 1] as int - '0' as int)
  }

  /** Reading back the decimal form of a size gives the size. */
  lemma {:induction false} DecimalRoundTrip(n: nat)
    ensures DecimalValue(NatToDecimal(n)) == n
    decreases n
  {
    if n >= 10 {
      var s := NatToDecimal(n);
      assert s[..|s| - 1] == NatToDecimal(n / 10);
      DecimalRoundTrip(n / 10);
    }
  }

  datatype Header = Header(name: string, value: string)

  /** The position of the first header called `name`. */
  function FirstIndex(headers: seq<Header>, name: string): (k: Option<nat>)
    ensures k.Some? ==> k.value < |headers| && headers[k.value].name == name
    ensures k.Some? ==> forall j :: 0 <= j < k.value ==> headers[j].name != name
    ensures k.None? ==> forall j :: 0 <= j < |headers| ==> headers[j].name != name
  {
    if headers == [] then None
    else if headers[0].name == name then Some(0)
    else match FirstIndex(headers[1..], name)
      case None => None
      case Some(k) => Some(k + 1)
  }

  /** What `header(name)` answers: the value of the first header called
      `name`, or "" when there is none. */
  function HeaderValue(headers: seq<Header>, name: string): string
  {
    match FirstIndex(headers, name)
    case Some(k) => headers[k].value
    case None => ""
  }

  /** What `set_header(name, value)` leaves: the first header called `name`
      gets the new value; without one, a header is appended. */
  function WithHeader(headers: seq<Header>, name: string, value: string): seq<Header>
  {
    match FirstIndex(headers, name)
    case Some(k) => headers[k := Header(name, value)]
    case None => headers + [Header(name, value)]
  }

  /** After `set_header(name, value)`, `header(name)` is `value`, every other
      name reads as before, and the list grew by one exactly when the name was new. */
  lemma SetHeaderThenHeader(headers: seq<Header>, name: string, value: string, other: string)
    ensures HeaderValue(WithHeader(headers, name, value), name) == value
    ensures other != name ==>
              HeaderValue(WithHeader(headers, name, value), other) == HeaderValue(headers, other)
    ensures |WithHeader(headers, name, value)|
            == |headers| + (if FirstIndex(headers, name).None? then 1 else 0)
  {
    var after := WithHeader(headers, name, value);
    match FirstIndex(headers, name)
    case Some(k) =>
      assert FirstIndex(after, name) == Some(k) by {
        FirstIndexUnique(after, name, k);
      }
      if other != name {
        SameNamesSameIndex(headers, after, other);
      }
    case None =>
      FirstIndexUnique(after, name, |headers|);
      if other != name {
        match FirstIndex(headers, other)
        case Some(j) =>
          FirstIndexUnique(after, other, j);
        case None =>
          assert FirstIndex(after, other).None?;
      }
  }

  /** The first index is determined by where the name first occurs. */
  lemma FirstIndexUnique(headers: seq<Header>, name: string, k: nat)
    requires k < |headers| && headers[k].name == name
    requires forall j :: 0 <= j < k ==> headers[j].name != name
    ensures FirstIndex(headers, name) == Some(k)
  {
    var r := FirstIndex(headers, name);
    assert r.Some?;
  }

  /** Lists with the same names have the same first index for every name; at an
      index whose value is unchanged the two lists also read alike. */
  lemma SameNamesSameIndex(a: seq<Header>, b: seq<Header>, name: string)
    requires |a| == |b| && forall j :: 0 <= j < |a| ==> a[j].name == b[j].name
    requires forall j :: 0 <= j < |a| && a[j].name == name ==> a[j] == b[j]
    ensures HeaderValue(a, name) == HeaderValue(b, name)
  {
    match FirstIndex(a, name)
    case Some(k) =>
      FirstIndexUnique(b, name, k);
    case None =>
      assert FirstIndex(b, name).None?;
  }

  /** One header line: `name ": " value CRLF`. */
  function HeaderLine(h: Header): string
  {
    h.name + NAME_VALUE_SEPARATOR + h.value + CRLF
  }

  /** The header lines in list order. */
  function HeaderLines(headers: seq<Header>): string
  {
    if headers == [] then ""
    else HeaderLines(headers[..|headers| - 1]) + HeaderLine(headers[|headers| - 1])
  }

  /** The four buffers `to_buffers` emits for one header. */
  function HeaderBuffers(h: Header): (pieces: seq<string>)
    ensures |pieces| == 4
  {
    [h.name, NAME_VALUE_SEPARATOR, h.value, CRLF]
  }

  lemma HeaderBuffersConcat(h: Header)
    ensures Concat(HeaderBuffers(h)) == HeaderLine(h)
  {
    var pieces := HeaderBuffers(h);
    assert pieces[1..][1..][1..] == [CRLF];
    assert Concat([CRLF]) == CRLF + Concat([]);
    assert pieces[1..][1..] == [h.value, CRLF];
    assert pieces[1..] == [NAME_VALUE_SEPARATOR, h.value, CRLF];
    assert Concat(pieces[1..][1..]) == h.value + CRLF;
    assert Concat(pieces[1..]) == NAME_VALUE_SEPARATOR + (h.value + CRLF);
    assert Concat(pieces) == h.name + (NAME_VALUE_SEPARATOR + (h.value + CRLF));
  }

  /** Extending the header list by one extends the block by that header's line. */
  lemma HeaderLinesStep(headers: seq<Header>, i: nat)
    requires i < |headers|
    ensures HeaderLines(headers[..i + 1]) == HeaderLines(headers[..i]) + HeaderLine(headers[i])
  {
    assert headers[..i + 1][..i] == headers[..i];
  }

  /** The header block read from the front: the first header's line comes first. */
  lemma {:induction false} HeaderLinesFront(headers: seq<Header>)
    requires headers != []
    ensures HeaderLines(headers) == HeaderLine(headers[0]) + HeaderLines(headers[1..])
    decreases |headers|
  {
    if |headers| > 1 {
      var init := headers[..|headers| - 1];
      HeaderLinesFront(init);
      assert init[1..] == headers[1..][..|headers[1..]| - 1];
    }
  }

  /** The bytes of a reply on the wire: status line, header lines, an empty
      line, then the body. */
  function Serialized(status: StatusType, headers: seq<Header>, content: string): string
  {
    StatusLine(status) + HeaderLines(headers) + CRLF + content
  }

  class Response {
    var status: StatusType
    var headers: seq<Header>
    var content: string

    /** A default-constructed reply: no headers and no body. */
    constructor ()
      ensures headers == [] && content == ""
    {
      status := Ok;
      headers := [];
      content := "";
    }

    /** `header(name)`: scans the headers in order for the first one called `name`. */
    method GetHeader(name: string) returns (value: string)
      ensures value == HeaderValue(headers, name)
    {
      var i := 0;
      while i < |headers|
        invariant 0 <= i <= |headers|
        invariant forall j :: 0 <= j < i ==> headers[j].name != name
      {
        if headers[i].name == name {
          FirstIndexUnique(headers, name, i);
          return headers[i].value;
        }
        i := i + 1;
      }
      return "";
    }

    /** `set_header(name, value)`: overwrites the value of the first header
        called `name`, or appends a new header. */
    method SetHeader(name: string, value: string)
      modifies this
      ensures headers == WithHeader(old(headers), name, value)
      ensures HeaderValue(headers, name) == value
      ensures status == old(status) && content == old(content)
    {
      SetHeaderThenHeader(headers, name, value, name);
      var i := 0;
      while i < |headers|
        invariant 0 <= i <= |headers| && headers == old(headers)
        invariant forall j :: 0 <= j < i ==> headers[j].name != name
      {
        if headers[i].name == name {
          FirstIndexUnique(headers, name, i);
          headers := headers[i := Header(name, value)];
          return;
        }
        i := i + 1;
      }
      headers := headers + [Header(name, value)];
    }

    /** `to_buffers()`: the status line, four buffers per header, the empty
        line and the body; together they are the serialized reply. */
    method ToBuffers() returns (buffers: seq<string>)
      ensures Concat(buffers) == Serialized(status, headers, content)
      ensures |buffers| == 4 * |headers| + 3
      ensures buffers[0] == StatusLine(status) && buffers[|buffers| - 1] == content
    {
      var first := StatusLine(status);
      buffers := [first];
      assert Concat(buffers) == first + Concat([]);
      var i := 0;
      while i < |headers|
        invariant 0 <= i <= |headers|
        invariant |buffers| == 4 * i + 1 && buffers[0] == first
        invariant Concat(buffers) == first + HeaderLines(headers[..i])
      {
        var h := headers[i];
        HeaderBuffersConcat(h);
        ConcatJoin(buffers, HeaderBuffers(h));
        HeaderLinesStep(headers, i);
        buffers := buffers + HeaderBuffers(h);
        i := i + 1;
      }
      assert headers[..i] == headers;
      ConcatAppend(buffers, CRLF);
      ConcatAppend(buffers + [CRLF], content);
      buffers := buffers + [CRLF] + [content];
      assert buffers[0] == first;
    }

    /** `stock_reply(status)`: the canned body for `status`, its length as
        `Content-Length` and `text/html` as `Content-Type`. */
    static method StockReply(status: StatusType) returns (rep: Response)
      ensures fresh(rep) && rep.status == status && rep.content == StockBody(status)
      ensures rep.headers == [Header("Content-Length", NatToDecimal(|StockBody(status)|)),
                              Header("Content-Type", "text/html")]
    {
      var body := StockBody(status);
      var length := NatToDecimal(|body|);
      rep := new Response();
      rep.status := status;
      rep.content := body;
      rep.SetHeader("Content-Length", length);
      assert rep.headers == [Header("Content-Length", length)];
      assert FirstIndex(rep.headers, "Content-Type") == None;
      rep.SetHeader("Content-Type", "text/html");
    }

    /** `WriteText(code, body)` */
    method WriteText(code: StatusType, body: string)
      modifies this
      ensures status == code && content == body
      ensures headers == WithHeader(WithHeader(old(headers), "Content-Length", NatToDecimal(|body|)),
                                    "Content-Type", "text/plain")
      ensures HeaderValue(headers, "Content-Length") == NatToDecimal(|body|)
      ensures HeaderValue(headers, "Content-Type") == "text/plain"
    {
      WriteWithType(code, body, "text/plain");
    }

    /** `WriteHtml(code, body)` */
    method WriteHtml(code: StatusType, body: string)
      modifies this
      ensures status == code && content == body
      ensures headers == WithHeader(WithHeader(old(headers), "Content-Length", NatToDecimal(|body|)),
                                    "Content-Type", "text/html")
      ensures HeaderValue(headers, "Content-Length") == NatToDecimal(|body|)
      ensures HeaderValue(headers, "Content-Type") == "text/html"
    {
      WriteWithType(code, body, "text/html");
    }

    /** The steps `WriteText` and `WriteHtml` share: status, body, then the
        two content headers. */
    method WriteWithType(code: StatusType, body: string, contentType: string)
      modifies this
      ensures status == code && content == body
      ensures headers == WithHeader(WithHeader(old(headers), "Content-Length", NatToDecimal(|body|)),
                                    "Content-Type", contentType)
      ensures HeaderValue(headers, "Content-Length") == NatToDecimal(|body|)
      ensures HeaderValue(headers, "Content-Type") == contentType
    {
      status := code;
      content := body;
      SetHeader("Content-Length", NatToDecimal(|content|));
      var withLength := headers;
      SetHeader("Content-Type", contentType);
      SetHeaderThenHeader(withLength, "Content-Type", contentType, "Content-Length");
    }
  }
}
