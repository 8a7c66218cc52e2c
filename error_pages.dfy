/** The synthesized HTML error responses (`default_error_response`). The
    three status texts are the reason phrases of sections 15.6.1, 15.6.3
    and 15.6.5 of RFC 9110. */
module ErrorPages {
  import opened CStrings
  import opened ProxyConfig

  const NAME: string := "Reverse Proxy Server"
  const VERSION: string := "0.1/dev"

  const INTERNAL_SERVER_ERROR: string := "500 Internal Server Error"
  const BAD_GATEWAY: string := "502 Bad Gateway"
  const GATEWAY_TIMEOUT: string := "504 Gateway Timeout"

  /** The version shown in the page footer: empty unless ERROR_SHOW_VERSION
      is non-zero. */
  function VersionField(showVersion: int): string {
    if showVersion != 0 then VERSION else ""
  }

  /** The fixed text of the format of `default_error_response` between its
      conversions, split at the CR that ends the status line. */
  const HEADERS: string := "\nContent-Type: text/html\r\n" + "\r\n" + "<html>" + "<head><title>"
  const TITLE_END: string := "</title></head>" + "<body><h2>"
  const HEADING_END: string := "</h2><h4>"
  const PAGE_END: string := "</h4></body>" + "</html>"

  /** The complete text the format of `default_error_response` expands to:
      the status line, its CR, and the rest of the page. */
  function ErrorPage(status: string, showVersion: int): (page: string)
    ensures |page| == 131 + 3 * |status| + |VersionField(showVersion)|
    ensures page[..9] == "HTTP/1.1 " && page[9..9 + |status|] == status
  {
    "HTTP/1.1 " + status + "\r" + PageAfterStatusLine(status, showVersion)
  }

  function PageAfterStatusLine(status: string, showVersion: int): string {
    HEADERS + status + TITLE_END + status + HEADING_END + NAME + " " + VersionField(showVersion) + PAGE_END
  }

  /** `default_error_response(response, status)`: the page, cut by `snprintf`
      to at most MEMORY_CONNECTION_BUFFER - 1 characters. */
  function DefaultErrorResponse(config: Config, status: string): (r: string)
    requires config.memoryConnectionBuffer >= 1
    ensures r <= ErrorPage(status, config.errorShowVersion)
    ensures |r| == Min(|ErrorPage(status, config.errorShowVersion)|, config.memoryConnectionBuffer - 1)
  {
    SnprintfCut(ErrorPage(status, config.errorShowVersion), config.memoryConnectionBuffer)
  }

  function Min(a: int, b: int): int {
    if a <= b then a else b
  }

  /** The fixed pieces of the page hold no NUL. */
  lemma HeadersHaveNoNul()
    ensures NUL !in HEADERS
  {
  }

  lemma FooterHasNoNul(showVersion: int)
    ensures NUL !in TITLE_END && NUL !in HEADING_END && NUL !in PAGE_END
    ensures NUL !in NAME + " " + VersionField(showVersion)
  {
  }

  /** The page holds no NUL when the status holds none. */
  lemma ErrorPageIsCString(status: string, showVersion: int)
    requires IsCString(status)
    ensures IsCString(ErrorPage(status, showVersion))
  {
    HeadersHaveNoNul();
    FooterHasNoNul(showVersion);
    var footer := NAME + " " + VersionField(showVersion);
    assert PageAfterStatusLine(status, showVersion)
        == HEADERS + status + TITLE_END + status + HEADING_END + footer + PAGE_END;
    assert NUL !in "HTTP/1.1 " + status + "\r";
  }

  /** The three error responses are C strings, so `strlen` sends all of them. */
  lemma ErrorResponsesAreCStrings(config: Config)
    requires config.memoryConnectionBuffer >= 1
    ensures IsCString(DefaultErrorResponse(config, BAD_GATEWAY))
    ensures IsCString(DefaultErrorResponse(config, GATEWAY_TIMEOUT))
    ensures IsCString(DefaultErrorResponse(config, INTERNAL_SERVER_ERROR))
  {
    var v := config.errorShowVersion;
    ErrorPageIsCString(BAD_GATEWAY, v);
    ErrorPageIsCString(GATEWAY_TIMEOUT, v);
    ErrorPageIsCString(INTERNAL_SERVER_ERROR, v);
  }

  /** The status line of a response: its text before the first CR. */
  function StatusLine(response: string): string {
    PrefixBefore(response, '\r')
  }

  /** An error page that is not cut carries the status it was built for. */
  lemma StatusLineOfErrorPage(config: Config, status: string)
    requires config.memoryConnectionBuffer > |ErrorPage(status, config.errorShowVersion)|
    requires '\r' !in status
    ensures StatusLine(DefaultErrorResponse(config, status)) == "HTTP/1.1 " + status
  {
    var head := "HTTP/1.1 " + status;
    assert '\r' !in head by {
      assert forall i :: 0 <= i < |head| ==> head[i] == if i < 9 then "HTTP/1.1 "[i] else status[i - 9];
    }
    var rest := PageAfterStatusLine(status, config.errorShowVersion);
    assert ErrorPage(status, config.errorShowVersion) == head + ['\r'] + rest;
    PrefixBeforeAppend(head, '\r', rest);
  }

  /** With the buffer the loader always configures, none of the three pages
      is cut. */
  lemma ErrorPagesComplete(config: Config)
    requires config.memoryConnectionBuffer == Defaults.memoryConnectionBuffer
    ensures DefaultErrorResponse(config, BAD_GATEWAY) == ErrorPage(BAD_GATEWAY, config.errorShowVersion)
    ensures DefaultErrorResponse(config, GATEWAY_TIMEOUT) == ErrorPage(GATEWAY_TIMEOUT, config.errorShowVersion)
    ensures DefaultErrorResponse(config, INTERNAL_SERVER_ERROR)
         == ErrorPage(INTERNAL_SERVER_ERROR, config.errorShowVersion)
  {
    assert |ErrorPage(INTERNAL_SERVER_ERROR, config.errorShowVersion)| < 1024;
  }
}
