/** parse_url_char: the automaton shared by the request line and by the URL decomposer. */
module UrlChar {
  import opened Characters
  import opened Http

  /** The state after one more URL byte; None stands for s_dead. */
  function ParseUrlChar(s: UrlState, ch: char): Option<UrlState> {
    if ch == SP || IsEol(ch) || ch == HT || ch == '\U{0C}' then None
    else
      match s
      case ReqSpacesBeforeUrl =>
        if ch == '/' || ch == '*' then Some(ReqPath)
        else if IsAlpha(ch) then Some(ReqSchema)
        else None
      case ReqSchema =>
        if IsAlpha(ch) then Some(ReqSchema)
        else if ch == ':' then Some(ReqSchemaSlash)
        else None
      case ReqSchemaSlash =>
        if ch == '/' then Some(ReqSchemaSlashSlash) else None
      case ReqSchemaSlashSlash =>
        if ch == '/' then Some(ReqServerStart) else None
      case ReqServerWithAt =>
        if ch == '@' then None else ServerChar(ch)
      case ReqServerStart | ReqServer =>
        ServerChar(ch)
      case ReqPath =>
        if IsUrlChar(ch) then Some(ReqPath)
        else if ch == '?' then Some(ReqQueryStringStart)
        else if ch == '#' then Some(ReqFragmentStart)
        else None
      case ReqQueryStringStart | ReqQueryString =>
        if IsUrlChar(ch) || ch == '?' then Some(ReqQueryString)
        else if ch == '#' then Some(ReqFragmentStart)
        else None
      case ReqFragmentStart =>
        if IsUrlChar(ch) || ch == '?' then Some(ReqFragment)
        else if ch == '#' then Some(ReqFragmentStart)
        else None
      case ReqFragment =>
        if IsUrlChar(ch) || ch == '?' || ch == '#' then Some(ReqFragment)
        else None
  }

  function ServerChar(ch: char): Option<UrlState> {
    if ch == '/' then Some(ReqPath)
    else if ch == '?' then Some(ReqQueryStringStart)
    else if ch == '@' then Some(ReqServerWithAt)
    else if IsUserinfoChar(ch) || ch == '[' || ch == ']' then Some(ReqServer)
    else None
  }
}
