/** Readings of the server's and the database's clock; nothing is assumed of their order. */
module Clock {
  type Time = int
}
