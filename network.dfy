/**
 * The session memo table of the scraper's network layer: one browser session
 * per URL, created on first use and reused afterwards.
 */
module Network {

  /** A headless-browser session. Only what `get_session` sets is modelled:
      the base URL it is created with and its `auto_load_images` attribute. */
  class Session {
    const baseUrl: string
    var autoLoadImages: bool

    constructor (baseUrl: string)
      ensures this.baseUrl == baseUrl
    {
      this.baseUrl := baseUrl;
      autoLoadImages := true;
    }

    /** `set_attribute('auto_load_images', value)`. */
    method SetAutoLoadImages(value: bool)
      modifies this
      ensures autoLoadImages == value
    {
      autoLoadImages := value;
    }
  }

  class Network {
    var sessions: map<string, Session>

    /** Every cached session was created for the URL it is filed under. */
    predicate Valid()
      reads this
    {
      forall url :: url in sessions ==> sessions[url].baseUrl == url
    }

    constructor ()
      ensures Valid() && sessions == map[]
    {
      sessions := map[];
    }

    /** `get_session(url)`: the cached session for `url`, or a new one with
        images switched off, filed under `url` first. */
    method GetSession(url: string) returns (session: Session)
      requires Valid()
      modifies this
      ensures Valid()
      ensures url in sessions && session == sessions[url] && session.baseUrl == url
      ensures url in old(sessions) ==> sessions == old(sessions)
      ensures url !in old(sessions) ==>
                && sessions == old(sessions)[url := session]
                && fresh(session) && !session.autoLoadImages
      ensures sessions.Keys == old(sessions).Keys + {url}
    {
      if url !in sessions {
        var created := new Session(url);
        created.SetAutoLoadImages(false);
        sessions := sessions[url := created];
      }
      session := sessions[url];
    }
  }

  /** Two calls in a row for the same URL return the same session and leave
      the table as the first call left it. */
  method GetSessionTwice(network: Network, url: string) returns (first: Session, second: Session)
    requires network.Valid()
    modifies network
    ensures network.Valid()
    ensures first == second && first.baseUrl == url
    ensures network.sessions == old(network.sessions)[url := first]
  {
    first := network.GetSession(url);
    ghost var afterFirst := network.sessions;
    second := network.GetSession(url);
    assert network.sessions == afterFirst;
  }

  /** A fresh table asked for one URL twice and another once holds two
      sessions; the repeated URL got the same session both times, the other
      URL a different one. */
  method TwoPages() returns (reused: bool, distinct: bool, cached: nat)
    ensures reused && distinct && cached == 2
  {
    var network := new Network();
    var elves := network.GetSession("http://names.example/elves");
    var dwarves := network.GetSession("http://names.example/dwarves");
    var again := network.GetSession("http://names.example/elves");
    reused := elves == again;
    distinct := elves != dwarves;
    cached := |network.sessions|;
  }
}
