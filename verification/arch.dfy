/** Architecture descriptors and dual-valued records (arch.go). */
module Arch {
  import opened Ints

  /** The two supported CPU architectures; the Go code has one singleton
      descriptor per architecture behind the `Arch` interface. */
  datatype ArchKind = AMD64 | ARM64

  /** A value per CPU architecture (arch.go, `Specific`). */
  datatype Specific = Specific(amd64: i64, arm64: i64)

  /** A syscall number per CPU architecture (arch.go, `Syscall`). */
  type Syscall = Specific

  /** A register: one encoding per architecture and the role it is expected
      to hold. The role label is the `Use` field that system.go fills in. */
  datatype Reg = Reg(amd64: u8, arm64: u8, use: string) {
    /** The same register expected to hold another role. */
    function As(role: string): (r: Reg)
      ensures r.amd64 == amd64 && r.arm64 == arm64 && r.use == role
    {
      this.(use := role)
    }
  }

  /** GNU-style CPU architecture name. */
  function Machine(a: ArchKind): string {
    match a
    case AMD64 => "x86_64"
    case ARM64 => "aarch64"
  }

  /** The value of a dual-valued record for the given architecture. */
  function Specify(a: ArchKind, x: Specific): i64 {
    match a
    case AMD64 => x.amd64
    case ARM64 => x.arm64
  }

  /** The encoding of a register that the given architecture's emitter reads. */
  function Encoding(a: ArchKind, r: Reg): u8 {
    match a
    case AMD64 => r.amd64
    case ARM64 => r.arm64
  }

  /** The descriptors indexed by Go-style architecture name. */
  const Archs: map<string, ArchKind> := map["amd64" := AMD64, "arm64" := ARM64]

  /** The registry has exactly two entries, each naming the descriptor whose
      GNU-style machine name corresponds to it. */
  lemma ArchsRegistry()
    ensures Archs.Keys == {"amd64", "arm64"}
    ensures Archs["amd64"] == AMD64 && Machine(Archs["amd64"]) == "x86_64"
    ensures Archs["arm64"] == ARM64 && Machine(Archs["arm64"]) == "aarch64"
    ensures Archs.Values == {AMD64, ARM64}
  {
    assert Archs["amd64"] == AMD64 && "amd64" in Archs;
    assert Archs["arm64"] == ARM64 && "arm64" in Archs;
    assert AMD64 in Archs.Values && ARM64 in Archs.Values;
  }

  /** Machine names tell the architectures apart. */
  lemma MachineDistinct(a: ArchKind, b: ArchKind)
    requires Machine(a) == Machine(b)
    ensures a == b
  {
  }

  /** Each architecture reads only its own field of a dual-valued record or
      register: changing the other field changes nothing it sees. */
  lemma OwnFieldOnly(x: Specific, r: Reg, other: u8, v: i64)
    ensures Specify(AMD64, x.(arm64 := v)) == Specify(AMD64, x)
    ensures Specify(ARM64, x.(amd64 := v)) == Specify(ARM64, x)
    ensures Encoding(AMD64, r.(arm64 := other)) == Encoding(AMD64, r)
    ensures Encoding(ARM64, r.(amd64 := other)) == Encoding(ARM64, r)
  {
  }
}
