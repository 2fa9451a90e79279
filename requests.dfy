/**
 * The API requests the reconciler sends: a verb, a path relative to the
 * API's base URI, and the form fields of the body.
 */
module Requests {

  datatype Verb = GET | PUT | POST

  /** The form fields of a request, before form encoding. */
  type RequestBody = map<string, string>

  datatype Request = Request(verb: Verb, path: string, body: RequestBody)

  /** The six form fields every create or update carries. */
  const BodyKeys: set<string> := {"name", "url", "type", "alertTreshold", "maxTime", "interval"}

  const ChecksPath: string := "checks"

  /** The request that lists the provider's checks; its body is empty. */
  const ListChecks: Request := Request(GET, ChecksPath, map[])

  /** The default form fields of a create or update. */
  function MakeReqBody(): (b: RequestBody)
    ensures b.Keys == BodyKeys
  {
    map[
      "name" := "",
      "url" := "http://",
      "type" := "http",
      "alertTreshold" := "2",
      "maxTime" := "5000",
      "interval" := "120"
    ]
  }

  /** The URL a host's check monitors. */
  function LiveUrl(ip: string): string
  {
    "http://" + ip + "/live/live.htm"
  }

  /** The path of the update for the check with the given id. */
  function UpdatePath(id: string): string
  {
    "checks/" + id
  }

  /** The defaults with `name` set to the host's label and `url` to its live URL. */
  function HostBody(name: string, ip: string): (b: RequestBody)
    ensures b.Keys == BodyKeys
    ensures b["name"] == name
    ensures b["url"] == "http://" + ip + "/live/live.htm"
    ensures b["type"] == "http" && b["alertTreshold"] == "2"
    ensures b["maxTime"] == "5000" && b["interval"] == "120"
  {
    MakeReqBody()["name" := name]["url" := LiveUrl(ip)]
  }

  /** Distinct hosts get distinct bodies: the body gives back name and ip. */
  lemma HostBodyInjective(name1: string, ip1: string, name2: string, ip2: string)
    requires HostBody(name1, ip1) == HostBody(name2, ip2)
    ensures name1 == name2 && ip1 == ip2
  {
    var u1, u2 := LiveUrl(ip1), LiveUrl(ip2);
    assert u1 == HostBody(name1, ip1)["url"] == u2;
    assert u1[7..|u1| - 14] == ip1;
    assert u2[7..|u2| - 14] == ip2;
  }

  /** An update never goes to the create path, whatever the id. */
  lemma UpdatePathIsNotCreatePath(id: string)
    ensures UpdatePath(id) != ChecksPath
  {
  }
}
