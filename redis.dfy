/** The shared coordination store the provider hosts of one worker use: a Redis server seen
    as a hash of hashes plus the list of messages published on its channels. Connection
    handling is not modelled; a server that cannot be reached fails every command with the
    same error. */
module Redis {

  import opened Wrappers

  datatype Message = Message(channel: string, payload: string)

  /** The hash of hashes after `HSET key field value`: that one field is set, every other
      key and field keeps its value. */
  function Stored(hash: map<string, map<string, string>>, key: string, field: string, value: string): (h: map<string, map<string, string>>)
    ensures h.Keys == hash.Keys + {key} && field in h[key] && h[key][field] == value
    ensures h[key].Keys == (if key in hash then hash[key].Keys else {}) + {field}
    ensures forall k :: k in hash && k != key ==> h[k] == hash[k]
    ensures forall f :: key in hash && f in hash[key] && f != field ==> h[key][f] == hash[key][f]
  {
    hash[key := (if key in hash then hash[key] else map[])[field := value]]
  }

  class RedisClient {
    var hash: map<string, map<string, string>>
    var published: seq<Message>
    /** `None` while the server answers; otherwise the error every command fails with. */
    var failure: Option<string>

    constructor (failure: Option<string>)
      ensures hash == map[] && published == [] && this.failure == failure
    {
      hash := map[];
      published := [];
      this.failure := failure;
    }

    /** `HGET key field`: the stored value, or `None` (a `null` reply) when there is none. */
    function HGet(key: string, field: string): (v: Option<string>)
      reads this
      ensures v.Some? <==> key in hash && field in hash[key]
      ensures v.Some? ==> v.value == hash[key][field]
    {
      if key in hash && field in hash[key] then Some(hash[key][field]) else None
    }

    /** `HSET key field value`; fails, changing nothing, when the server cannot be reached. */
    method HSet(key: string, field: string, value: string) returns (err: Option<string>)
      modifies this
      ensures err == failure && failure == old(failure) && published == old(published)
      ensures err.None? ==> hash == Stored(old(hash), key, field, value)
      ensures err.Some? ==> hash == old(hash)
      ensures err.None? ==> HGet(key, field) == Some(value)
    {
      err := failure;
      if failure.None? {
        var entry := if key in hash then hash[key] else map[];
        hash := hash[key := entry[field := value]];
      }
    }

    /** `PUBLISH channel message`; lost when the server cannot be reached. */
    method Publish(channel: string, payload: string)
      modifies this
      ensures hash == old(hash) && failure == old(failure)
      ensures published == old(published) + (if failure.None? then [Message(channel, payload)] else [])
    {
      if failure.None? {
        published := published + [Message(channel, payload)];
      }
    }
  }
}
