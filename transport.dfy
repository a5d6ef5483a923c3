/** The device handle the tuner borrows for every call (`RtlSdrDeviceHandle`).
    Its transport primitives are foreign code; they are modelled only by what they
    leave behind: a log of the bus and demodulator requests, in order. The bytes an
    I2C read returns are not computed here; the caller passes them in (an oracle). */
module Transport {

  /** One request to the transport, as seen from the tuner. */
  datatype Event =
    | I2cWrite(addr: int, bytes: seq<bv8>)               // i2c_write(addr, bytes)
    | I2cRead(addr: int, len: nat)                       // i2c_read(addr, buf, len)
    | DemodWrite(page: int, reg: int, val: int, len: nat) // demod_write_reg(page, reg, val, len)
    | SetIfFreq(hz: int)                                 // set_if_freq(hz)

  class DeviceHandle {
    /** Every request issued so far, oldest first. */
    ghost var log: seq<Event>

    constructor ()
      ensures log == []
    {
      log := [];
    }

    method I2cWriteBytes(addr: int, bytes: seq<bv8>)
      modifies this
      ensures log == old(log) + [I2cWrite(addr, bytes)]
    {
      log := log + [I2cWrite(addr, bytes)];
    }

    /** Fills buf[..len] with the bytes the device answered (`raw`); the rest of buf is untouched. */
    method I2cReadBytes(addr: int, buf: array<bv8>, len: nat, raw: seq<bv8>)
      requires len <= buf.Length && |raw| == len
      modifies this, buf
      ensures log == old(log) + [I2cRead(addr, len)]
      ensures buf[..len] == raw && buf[len..] == old(buf[len..])
    {
      forall i | 0 <= i < len {
        buf[i] := raw[i];
      }
      log := log + [I2cRead(addr, len)];
    }

    method DemodWriteReg(page: int, reg: int, val: int, len: nat)
      modifies this
      ensures log == old(log) + [DemodWrite(page, reg, val, len)]
    {
      log := log + [DemodWrite(page, reg, val, len)];
    }

    method SetIfFrequency(hz: int)
      modifies this
      ensures log == old(log) + [SetIfFreq(hz)]
    {
      log := log + [SetIfFreq(hz)];
    }
  }
}
