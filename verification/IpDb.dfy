/** src/ip_db.h: per-address state behind a mutex that is only ever tried, never waited for. */
module IpDb {
  import opened Bytes

  type Db<V> = map<Str, V>

  /** The stored state, or the default-constructed one. */
  function Lookup<V>(db: Db<V>, ip: Str, unset: V): V {
    if ip in db then db[ip] else unset
  }

  /** `get_ip_state`: nothing when the try-lock fails. */
  function Get<V>(db: Db<V>, ip: Str, unset: V, locked: bool): Option<V> {
    if locked then Some(Lookup(db, ip, unset)) else None
  }

  /** `set_ip_state`. */
  function Put<V>(db: Db<V>, ip: Str, v: V, locked: bool): Db<V> {
    if locked then db[ip := v] else db
  }

  /** `drop_ip`. */
  function Drop<V>(db: Db<V>, ip: Str, locked: bool): Db<V> {
    if locked then db - {ip} else db
  }

  /** What one address can see of a table: its entry, present or not. */
  function Entry<V>(db: Db<V>, ip: Str): Option<V> {
    if ip in db then Some(db[ip]) else None
  }

  class IpTable<V> {
    var db: Db<V>
    const unset: V

    constructor (unset: V)
      ensures db == map[] && this.unset == unset
    {
      this.unset := unset;
      db := map[];
    }

    method SetIpState(ip: Str, v: V, locked: bool) returns (ok: bool)
      modifies this
      ensures db == Put(old(db), ip, v, locked) && ok == locked
    {
      if !locked {
        return false;
      }
      db := db[ip := v];
      return true;
    }

    method DropIp(ip: Str, locked: bool) returns (ok: bool)
      modifies this
      ensures db == Drop(old(db), ip, locked) && ok == (locked && ip in old(db))
    {
      if !locked {
        return false;
      }
      ok := ip in db;
      db := db - {ip};
    }

    method GetIpState(ip: Str, locked: bool) returns (r: Option<V>)
      ensures r == Get(db, ip, unset, locked)
    {
      if !locked {
        return None;
      }
      r := Some(if ip in db then db[ip] else unset);
    }
  }
}
