/** One hash table of serialized values (src/data_store.cpp). Each method is one
    critical section of the table's lock. */
module DataStores {
  import opened ByteStrings

  class DataStore {
    var table: map<Bytes, Bytes>

    constructor ()
      ensures table == map[]
    {
      table := map[];
    }

    method Set(key: Bytes, value: Bytes) returns (stored: bool)
      modifies this
      ensures stored && table == old(table)[key := value]
    {
      table := table[key := value];
      return true;
    }

    method Del(key: Bytes) returns (deleted: bool)
      modifies this
      ensures deleted <==> key in old(table)
      ensures table == old(table) - {key}
    {
      if key !in table {
        return false;
      }
      table := table - {key};
      return true;
    }

    method Get(key: Bytes) returns (found: bool, value: Bytes)
      ensures found <==> key in table
      ensures value == if found then table[key] else []
    {
      if key !in table {
        return false, [];
      }
      return true, table[key];
    }

    // The overloads that take C strings.

    method SetCString(key: Bytes, value: Bytes) returns (stored: bool)
      modifies this
      ensures stored && table == old(table)[CString(key) := CString(value)]
    {
      stored := Set(CString(key), CString(value));
    }

    method DelCString(key: Bytes) returns (deleted: bool)
      modifies this
      ensures deleted <==> CString(key) in old(table)
      ensures table == old(table) - {CString(key)}
    {
      deleted := Del(CString(key));
    }

    method GetCString(key: Bytes) returns (found: bool, value: Bytes)
      ensures found <==> CString(key) in table
      ensures value == if found then table[CString(key)] else []
    {
      found, value := Get(CString(key));
    }
  }
}
