# ga: assembly-text emitter for AMD64 and ARM64, in Dafny

`gate.computer/ga` is a small Go library that writes GNU assembler source for two
CPU architectures. A session (`Assembly`) is bound to one architecture and one
system ABI. It starts with a fixed file header. Every interface method then
appends formatted lines to a text buffer. Most methods also record or check a
*role* label (`Reg.Use`) for the register encodings they define or read.

The model is functional. A session is the immutable `Session.State`, which holds:

- the bound architecture and the ABI descriptor;
- the buffer, as a sequence of newline-terminated lines;
- the role map, from the bound architecture's encodings to role labels;
- a policy for encodings that were never given a role.

Every interface method is a function `(State, args) -> Result<State>`. Each of
the library's `panic`s becomes an `Err` value that names its cause:

- a register with no name of the requested width;
- a session bound to the other architecture;
- a role check that fails.

What is modelled, module by module:

- `Ints`, `Decimal`, `Words`, `Text`: Go `int`/`uint64` and their conversions,
  `fmt`'s `%d`, `strings.Fields`, and the shared text layer of `assembly.go`:
  - `global` and `symbol`;
  - the `insn`, `insnf`, `printf` and `label` formatters;
  - the header constants.
- `Arch`, `Abi`, `Amd64Regs`, `Arm64Regs`: the dual-valued records, the `Archs`
  registry, the `Linux()` descriptor and the two register files with their
  names and `ClearableRegs`.
- `Session`: the buffer, the role check and the line-writing primitives.
- `Amd64`, `Arm64`: every method of the two emitters, and the two
  architecture-specific helpers of each `Arch` value.
- `Lanes`: the 16-bit-lane algorithm of ARM64 `MoveImm64`. It has a semantic
  round trip: replaying the chosen `movz`/`movn`/`movk` plan on any register
  yields the value. The movz path is also written as the source's loops.
- `Arm64Reader`: reads the emitted move lines back into the plan. It shows that
  the text `MoveImm64` writes loads exactly the requested value.
- `Operands`: the AMD64 memory-operand shapes (`[b]`, `[b + n]`, `[b - |n|]`)
  and the uniform ARM64 `[b, n]`. Each has a parser, and the parser is proved
  to invert the rendering.
- `Assembly`: session construction, the `ArchAssembly` interface as one `Op`
  datatype with dispatch, runs of operations, and the role discipline. For
  each call the model lists which registers it checks (`Reads`) and which
  roles it records (`Defs`). `ApplyDisciplined` proves on both architectures
  that every call:
  - only appends;
  - fails with a role error exactly when a register it reads is refused;
  - once every read passes, can fail only for a register without a name;
  - otherwise records exactly the roles of `Defs`, in order.

Some parts the source uses are not in the source itself. These are
`buffer.checkUsage`, `buffer.regUsage`, `Reg.Use`, `Reg.Is` and `Reg.As`.
They are modelled as follows:

- `check` succeeds when the encoding's recorded role equals the expected role.
- An encoding with no recorded role is admitted or refused according to the
  session's `UnrecordedRoles` parameter. The model does not choose one.
- `Set` records the role.
- `Reg.As(role)` is the same register with another role.
- `Reg.Is` on AMD64 is equality of AMD64 encodings. This is an assumption.
  ARM64 `MoveReg` compares register names, as the source does; the names are
  equal exactly when the encodings are.

arch.go declares `Reg` with two fields, while system.go and both emitters use
a third field, `Use`. The model follows the code that uses the field, so
`Arch.Reg` has a `use: string` component.

## Model

| member | source | states |
|---|---|---|
| Ints.ToInt64 | amd64.go:280-281 | `int64(uint64)` keeps values below 2^63 and subtracts 2^64 from the others |
| Ints.ToUint64 | arm64.go:206 | `uint64(int64)` keeps the bits: the result agrees with the input modulo 2^64 |
| Ints.ConversionsInverse | arm64.go:205-215 | the two conversions are mutually inverse, so no bits are lost between `MoveImm` and `MoveImm64` |
| Ints.OneShiftedLeft | amd64.go:492-494 | Go's `1<<bit` as an `int`: positive below 63, the minimum at 63, zero from 64 on |
| Decimal.Dec | amd64.go:546-552 | `%d` rendering: non-empty, a minus sign exactly for negatives, otherwise digits |
| Decimal.DecRoundTrip | arm64.go:430-432 | parsing the rendering of any integer gives the integer back |
| Decimal.DecInjective | amd64.go:546-548 | different integers render differently |
| Words.Fields | assembly.go:141 | `strings.Fields`: every field is a non-empty word without white space |
| Words.FieldsOfSpaced | assembly.go:141 | splitting words joined by single spaces gives the words back |
| Words.FieldsSplitAtSpace | assembly.go:156 | the fields of `a + " " + b` are the fields of `a` then those of `b` |
| Text.Symbol | assembly.go:46-51 | identity on global names; a local `.x` becomes `.Lx` and stays local |
| Text.SymbolInjective | assembly.go:46-51 | different names give different symbols |
| Text.ReplaceFirst | assembly.go:50 | `strings.Replace(…, 1)`: unchanged without the character; a leading one is replaced by the replacement |
| Text.ReplaceFirstAt | assembly.go:50 | `strings.Replace(…, 1)` in general: the first occurrence, at any index, becomes the replacement and everything before and after it is kept |
| Text.LabelOfWord | assembly.go:119-121 | for a name without white space, `label` writes exactly the symbol, a colon and a newline |
| Text.InsnLineShape | assembly.go:123-138 | `insn` writes a tab, the mnemonic, a tab, the operands joined by `, `, and a newline |
| Text.InsnWritesOneLine | assembly.go:123-138 | `insn` of newline-free text writes exactly one line |
| Text.InsnfMnemonicRest | assembly.go:140-153 | `insnf` puts a tab before each of the first two fields and keeps canonical operand text as it is |
| Text.ExtraSpacingIgnored | assembly.go:140-168 | extra spaces in the formatted text never reach the output of `insnf` or `printf` |
| Text.InsnfAgreesWithInsn | assembly.go:123-153 | `insnf` of a mnemonic and comma-joined words writes the same line as `insn` |
| Text.PrintfFirstRest | assembly.go:155-168 | `printf` writes the first field without a prefix, then a tab, then the rest |
| Text.PrintfEmpty | assembly.go:155-168 | `printf("")` writes exactly one newline |
| Text.SplittingFormattersWriteOneLine | assembly.go:140-168 | `insnf` and `printf` always write exactly one newline-terminated line |
| Session.CheckUsage | amd64.go:202-204 | the role check succeeds exactly when the register is admitted; otherwise a mismatch or unrecorded-role error |
| Session.SetUsage | amd64.go:206-208 | `Set` records the role for that encoding and keeps every other role and the text |
| Session.DefineThenConsume | arm64.go:143-149 | after `Set`, checking the same role passes, another role fails, and other encodings are unaffected |
| Session.PrimitivesAppendOneLine | assembly.go:119-168 | each of `insn`, `insnf`, `printf`, `label` appends exactly one line and extends the text |
| Session.ConcatAppend | assembly.go:70-72 | the text after a write is the old text followed by the new line |
| Session.AlignDirective | amd64.go:213 | `.align 16,<fill>` is written as `.align`, tab, `16,<fill>` |
| Session.TypeDirective | amd64.go:215 | the double space in `.type  sym,@function` collapses to one tab |
| Session.GloblDirective | amd64.go:214 | `.globl sym` is written with a tab |
| Session.Visibility | amd64.go:214-215 | the visibility lines: `.globl` and optionally `.type` |
| Session.VisibilityText | arm64.go:154-155 | the exact visibility lines for a name without white space |
| Arch.ArchsRegistry | arch.go:30-33 | `Archs` has exactly the keys `amd64` and `arm64`, bound to AMD64 (`x86_64`) and ARM64 (`aarch64`) |
| Arch.MachineDistinct | amd64.go:146-148 | the two machine names differ |
| Arch.OwnFieldOnly | arch.go:8-17 | `Specify` and a register's encoding read only the field of their own architecture |
| Abi.LinuxParameterLists | system.go:20-36 | six parameters of each kind; the lists differ only at index 3 on AMD64 (R10 against RCX); ARM64 uses X0..X5 for both |
| Abi.LinuxParametersDistinct | system.go:18-36 | within each list the encodings are pairwise distinct on each architecture, and none is the stack pointer |
| Abi.LinuxSyscallRegisters | system.go:19-28 | the syscall number and result share RAX on AMD64 but are X8 and X0 on ARM64 |
| Abi.StackNotClearable | system.go:18 | the stack pointer is in neither architecture's `ClearableRegs` |
| Abi.LinuxParameterLabels | system.go:21-35 | parameter `i` is labelled `sysparam<i>` or `libparam<i>` |
| Abi.LinuxRoleLabels | system.go:16-39 | the role labels are exactly those of the descriptor, in order |
| Amd64Regs.ClearableRegsSpec | amd64.go:121-140 | `ClearableRegs` is every register that has a 32-bit name (all but RSP), in ascending order |
| Amd64Regs.Name64Injective | amd64.go:40-65 | `reg` names the 16 registers differently |
| Amd64Regs.Name32Injective | amd64.go:67-92 | `reg4` names the 15 registers other than RSP differently |
| Amd64Regs.Name8Injective | amd64.go:94-119 | `reg1` names the 15 registers other than RSP differently |
| Amd64Regs.NamesAreWords | amd64.go:40-119 | every register name is a single word |
| Arm64Regs.ClearableRegsSpec | arm64.go:74-109 | `ClearableRegs` is X0..X29, without the link register and X31 |
| Arm64Regs.NamesInjective | arm64.go:58-72 | `reg` and `reg4` are injective and never coincide |
| Amd64.RegName | amd64.go:40-119 | a name of the requested width exists exactly when the encoding has one; otherwise a bad-register error |
| Amd64.NamesDistinct | amd64.go:570-600 | the condition suffixes and shift mnemonics are all different |
| Amd64.ClearReg | amd64.go:154-159 | fails on an ARM64 session; otherwise `xor` of the 32-bit name with itself, or a bad-register error |
| Amd64.ClearableRegsClear | amd64.go:121-159 | `ClearReg` succeeds on every clearable register |
| Amd64.OrMem4BytesImm | amd64.go:161-173 | fails on an ARM64 session; otherwise one `or dword ptr <mem>, <value>` line |
| Amd64.ExchangeMem4BytesReg | amd64.go:175-187 | fails on an ARM64 session; otherwise one `xchg <mem>, <reg4>` line |
| Amd64.Label | amd64.go:210-219 | six lines for a global name (blank, `.align 16,0x90`, `.globl`, `.type`, blank, label), two for a local one |
| Amd64.LabelText | amd64.go:210-219 | the exact lines of `Label` for a name without white space |
| Amd64.FunctionEpilogue | amd64.go:221-222 | writes nothing |
| Amd64.Function | amd64.go:224-233 | blank and `.align 16,0xcc` always; `.globl` and `.type` only for global names; then blank and label |
| Amd64.FunctionWithoutPrologue | amd64.go:235-243 | as `Function` but without `.type` |
| Amd64.FunctionHeadText | amd64.go:224-243 | the exact heading lines of both function forms |
| Amd64.ReturnWithoutEpilogue | amd64.go:249-252 | `ret` then the `int3` barrier |
| Amd64.Return | amd64.go:245-247 | the same two lines: the epilogue is empty |
| Amd64.Address | amd64.go:254-257 | `lea dest, [rip + sym]` and dest's role recorded |
| Amd64.MoveDef | amd64.go:259-262 | `mov dest, sym` and dest's role recorded |
| Amd64.MoveImm | amd64.go:264-274 | zero gives `xor` of the 32-bit name; other 32-bit values `mov` of the 32-bit name; anything else `mov` of the 64-bit name |
| Amd64.MoveImm64 | amd64.go:276-286 | the same selection, made on the bits read as `int64` |
| Amd64.MoveImm64AgreesWithMoveImm | amd64.go:264-286 | `MoveImm64` equals `MoveImm` of the same bits whenever the rendered number is the same, and both succeed together |
| Amd64.MoveReg | amd64.go:288-294 | reads src; nothing is written when dest is src; otherwise one `mov`; dest's role recorded |
| Amd64.MoveRegFloat | amd64.go:296-299 | `movq dest, xmmN` and dest's role recorded |
| Amd64.AddImm | amd64.go:301-315 | reads src; zero delegates to `MoveReg`; dest is src gives `add`; positive gives `lea`; negative gives `mov` then `add` |
| Amd64.AddReg | amd64.go:317-329 | reads both sources; `add` when dest is one of them, otherwise `lea dest, [a + b]` |
| Amd64.SubtractImm | amd64.go:331-337 | reads dest; zero writes nothing but still records the role; otherwise `sub` |
| Amd64.SubtractReg | amd64.go:339-344 | reads dest then src; one `sub` |
| Amd64.MultiplyImm | amd64.go:346-352 | reads dest then src; records temp's role; one three-operand `imul`; records dest's role |
| Amd64.AndImm | amd64.go:354-365 | reads dest; zero gives `xor`; values in (0, 2^31) use the 32-bit name; others the 64-bit name |
| Amd64.AndReg | amd64.go:367-372 | reads dest then src; one `and` |
| Amd64.OrImm | amd64.go:374-378 | reads dest; one `or` |
| Amd64.OrReg | amd64.go:380-385 | reads dest then src; one `or` |
| Amd64.ShiftImm | amd64.go:387-393 | reads the register; a zero count writes nothing but records the role; otherwise `shl`/`shr`/`sar` |
| Amd64.LoadAs | amd64.go:395-432 | reads base; one `mov` of the 64-, 32- or 8-bit name from the three-shape memory operand; dest's role recorded |
| Amd64.StoreAs | amd64.go:434-458 | reads base then src; one `mov` to the memory operand; roles unchanged |
| Amd64.Push | amd64.go:460-463 | reads the register; one `push` |
| Amd64.Pop | amd64.go:465-468 | one `pop`; the register's role recorded |
| Amd64.Jump | amd64.go:470-472 | one `jmp` to the symbol |
| Amd64.Call | amd64.go:528-530 | one `call` to the symbol |
| Amd64.Unreachable | amd64.go:538-540 | one `int3` |
| Amd64.Trampoline | amd64.go:476-480 | the call to `_setup`, the `_capture` label, `pause` and the jump back |
| Amd64.OverwriteReturn | amd64.go:483-485 | stores the register over the return address through the stack pointer, clears it, returns; checks the stack pointer then the register |
| Amd64.SetupRoutine | amd64.go:482-485 | the `_setup` heading without `.type`, then `OverwriteReturn` |
| Amd64.JumpRegRoutine | amd64.go:474-486 | checks the register, writes the trampoline and the setup routine, and records only the register's role |
| Amd64.JumpRegRoutineParts | amd64.go:474-486 | the routine is exactly the trampoline followed by the setup routine |
| Amd64.BitTest | amd64.go:488-508 | reads the register; `test` of the 32-bit name below bit 31, of the 64-bit name from bit 31; then the jump |
| Amd64.JumpIfBitSet | amd64.go:488-497 | the bit test followed by `jne` |
| Amd64.JumpIfBitNotSet | amd64.go:499-508 | the bit test followed by `je` |
| Amd64.BitTestMask | amd64.go:492-494 | the mask is 2^bit below bit 63 and at most 2^30 below bit 31 |
| Amd64.JumpIfImm | amd64.go:510-519 | reads the register; zero with EQ/NE gives `test r, r`, anything else `cmp`; then `j<cond>` |
| Amd64.JumpIfReg | amd64.go:521-526 | reads dest then src; `cmp` then `j<cond>` |
| Amd64.Syscall | amd64.go:532-536 | `MoveImm` of the AMD64 number into the syscall register, `syscall`, and the result role recorded |
| Amd64.LinuxSyscall | amd64.go:532-536 | on Linux, for a non-zero number that fits in 32 bits: `mov eax, N`, `syscall`, and RAX's role becomes `sysresult` |
| Arm64.RegName | arm64.go:58-72 | a name exists exactly below 32; otherwise a bad-register error |
| Arm64.NamesDistinct | arm64.go:446-476 | the condition suffixes and shift mnemonics are all different |
| Arm64.ClearReg | arm64.go:123-128 | fails on an AMD64 session; otherwise `mov xN, 0` |
| Arm64.ClearableRegsClear | arm64.go:74-128 | `ClearReg` succeeds on every clearable register |
| Arm64.Label | arm64.go:151-159 | blank, `.globl`, `.type` for a global name, then blank and the label |
| Arm64.LabelHeadText | arm64.go:151-183 | the exact heading lines of labels and functions |
| Arm64.Function | arm64.go:165-174 | the label heading, then `str lr, [<sp>, -8]!`, where `<sp>` is the stack pointer's name (`x31` under Linux) |
| Arm64.FunctionWithoutPrologue | arm64.go:176-183 | the heading without `.type` and without the link-register store |
| Arm64.FunctionEpilogue | arm64.go:161-163 | `ldr lr, [<sp>], 8` |
| Arm64.Barrier | arm64.go:425-428 | `dsb sy` then `isb` |
| Arm64.ReturnWithoutEpilogue | arm64.go:190-193 | `ret` then the barrier |
| Arm64.Return | arm64.go:185-188 | `ldr lr`, `ret`, `dsb sy`, `isb` |
| Arm64.ReturnIsEpilogueThenReturn | arm64.go:185-193 | `Return` is the epilogue's line followed by exactly the lines of `ReturnWithoutEpilogue` |
| Arm64.IndirectBranchesBarred | arm64.go:382-386 | the indirect branch and the return both end with the same two-line barrier |
| Arm64.Address | arm64.go:195-198 | `adr dest, sym` and dest's role recorded |
| Arm64.MoveDef | arm64.go:200-203 | `mov dest, sym` and dest's role recorded |
| Arm64.MovLines | arm64.go:215-247 | one line per planned instruction, each rendered with the destination name |
| Arm64.MoveImm64 | arm64.go:210-253 | the lines of the lane plan for the value, and dest's role recorded |
| Arm64.MoveImm | arm64.go:205-208 | exactly `MoveImm64` of `uint64(int64(value))`; the second role record changes nothing |
| Arm64.MoveReg | arm64.go:255-261 | reads src; a move only when the names differ; dest's role recorded |
| Arm64.MoveRegFloat | arm64.go:263-266 | `fmov dest, dN` and dest's role recorded |
| Arm64.AddImm | arm64.go:268-272 | reads src; `add dest, src, imm` |
| Arm64.AddReg | arm64.go:274-279 | reads both sources; `add dest, a, b` |
| Arm64.RegImm | arm64.go:304-321 | the in-place immediate form `m dest, dest, imm` after reading dest |
| Arm64.RegReg | arm64.go:289-328 | the in-place register form `m dest, dest, src` after reading dest then src |
| Arm64.SubtractImm | arm64.go:281-287 | reads dest; zero writes nothing but records the role; otherwise `sub dest, dest, imm` |
| Arm64.SubtractReg | arm64.go:289-294 | `sub dest, dest, src` |
| Arm64.MultiplyImm | arm64.go:296-302 | reads src; the move plan of the value into temp, `mul dest, src, temp`; dest's role recorded; temp left with the empty role |
| Arm64.MultiplyImmReleasesTemp | arm64.go:296-302 | after the call temp passes the role check only for the empty role, and dest keeps its role unless it is temp |
| Arm64.AndImm | arm64.go:304-308 | `and dest, dest, imm` |
| Arm64.AndReg | arm64.go:310-315 | `and dest, dest, src` |
| Arm64.OrImm | arm64.go:317-321 | `orr dest, dest, imm` |
| Arm64.OrReg | arm64.go:323-328 | `orr dest, dest, src` |
| Arm64.ShiftImm | arm64.go:330-336 | a zero count writes nothing but records the role; otherwise `lsl`/`lsr`/`asr` in place |
| Arm64.LoadWith | arm64.go:338-354 | reads base; one load line with the uniform `[base, offset]` operand; dest's role recorded |
| Arm64.Load | arm64.go:338-342 | `ldr` of the 64-bit name |
| Arm64.Load4Bytes | arm64.go:344-348 | `ldr` of the 32-bit name |
| Arm64.LoadByte | arm64.go:350-354 | `ldurb` of the 32-bit name |
| Arm64.StoreAs | arm64.go:356-366 | reads base then src; `str` with the uniform operand; roles unchanged |
| Arm64.Push | arm64.go:368-371 | reads the register; `str r, [<sp>, -8]!` |
| Arm64.Pop | arm64.go:373-376 | `ldr r, [<sp>], 8` and the register's role recorded |
| Arm64.Jump | arm64.go:378-380 | `b sym` |
| Arm64.Call | arm64.go:411-413 | `bl sym` |
| Arm64.Unreachable | arm64.go:421-423 | `brk 0` |
| Arm64.JumpRegRoutine | arm64.go:382-386 | reads the register; `br r` then the barrier; roles unchanged |
| Arm64.JumpIfBitSet | arm64.go:388-391 | reads the register; `tbnz r, bit, sym` |
| Arm64.JumpIfBitNotSet | arm64.go:393-396 | reads the register; `tbz r, bit, sym` |
| Arm64.JumpIfImm | arm64.go:398-402 | reads the register; `cmp` then `b.<cond>` |
| Arm64.JumpIfReg | arm64.go:404-409 | reads dest then src; `cmp` then `b.<cond>` |
| Arm64.Syscall | arm64.go:415-419 | `mov wN, nr` with the ARM64 number, `svc 0`, and the result role recorded |
| Arm64.LinuxSyscall | arm64.go:415-419 | on Linux: `mov w8, N`, `svc 0`; X0's role becomes `sysresult` and X8's is not touched |
| Lanes.LanesRoundTrip | arm64.go:221-233 | a value is rebuilt from its four 16-bit lanes |
| Lanes.ValueRoundTrip | arm64.go:221-233 | any four 16-bit lanes are exactly the lanes of the value they assemble |
| Lanes.LanesDetermineValue | arm64.go:221-233 | two values are equal exactly when their lanes are |
| Lanes.UniformValues | arm64.go:213-215 | all lanes are zero exactly for 0, and all are 0xffff exactly for all-ones |
| Lanes.NotLanes | arm64.go:245 | the complement of a value is the lane-wise complement |
| Lanes.StepLanes | arm64.go:231-247 | `movz` clears and sets one lane, `movn` sets all other lanes to ones and one lane to the complement, `movk` replaces one lane |
| Lanes.SpecialValues | arm64.go:213-228 | the value is 0 or all-ones exactly when one of the two lane counts is zero |
| Lanes.CountsCoverLanes | arm64.go:219-228 | the two counts together cover at least all four lanes |
| Lanes.CountLanes | arm64.go:219-228 | the counting loop computes the non-zero and non-0xffff lane counts |
| Lanes.MovzFromReplays | arm64.go:230-238 | the movz path, replayed, builds the value from any prior register contents |
| Lanes.MovnFromReplays | arm64.go:239-251 | the movn path, replayed, builds the value from any prior register contents |
| Lanes.PlanReplays | arm64.go:210-253 | replaying the whole plan yields exactly the input value, for every value and register |
| Lanes.PlanShape | arm64.go:210-253 | a single `mov` for 0 and all-ones; otherwise 1 to 4 instructions, movz exactly when zbased ≤ nbased, as many as the chosen count, first movz or movn, then only movk, lanes strictly ascending |
| Lanes.MovzLoop | arm64.go:230-238 | the source's movz loop produces the movz plan |
| Lanes.MovnLoop | arm64.go:239-251 | the source's movn loop produces the movn plan |
| Lanes.EmitLoops | arm64.go:213-252 | the whole loop structure of `MoveImm64` produces the plan |
| Arm64Reader.ReadMovLine | arm64.go:215-247 | every rendered move line reads back as the move it came from |
| Arm64Reader.ReadMovLines | arm64.go:230-252 | a sequence of rendered move lines reads back as the sequence |
| Arm64Reader.OtherRegisterDoesNotRead | arm64.go:235-247 | a move line for one register is never read as a move into another |
| Arm64Reader.MoveImm64Loads | arm64.go:210-253 | `MoveImm64` always succeeds on a named register, writes 1 to 4 lines, and those lines load exactly the value |
| Arm64Reader.MoveImmLoads | arm64.go:205-208 | the lines of `MoveImm` load the value's 64-bit two's-complement bits |
| Operands.Neg64 | amd64.go:403 | Go's `-offset`: negation, with the minimum `int` left unchanged |
| Operands.Amd64MemRoundTrip | amd64.go:395-458 | the three operand shapes `[b]`, `[b + n]`, `[b - \|n\|]` parse back to the base and the signed offset |
| Operands.Amd64MemInjective | amd64.go:395-458 | different base/offset pairs render differently |
| Operands.Amd64LoadOperands | amd64.go:395-432 | load operands are canonical text, so `insnf` keeps them as they are |
| Operands.Amd64StoreOperands | amd64.go:434-458 | store operands are canonical text |
| Operands.DwordOperands | amd64.go:161-173 | the `dword ptr` operand is canonical text |
| Operands.Arm64MemRoundTrip | arm64.go:338-366 | the uniform `[b, n]` operand parses back to the base and the offset, including 0 and negatives |
| Operands.Arm64MemOperands | arm64.go:338-366 | ARM64 memory operands are canonical text |
| Operands.Arm64StackOperands | arm64.go:368-376 | the push and pop operands are canonical text |
| Assembly.NewAssembly | assembly.go:60-68 | a fresh session: no roles, a header of 6 (AMD64) or 4 (ARM64) lines, the comment line first, the two section lines last, `.intel_syntax noprefix` exactly on AMD64 |
| Assembly.Amd64HeaderText | amd64.go:11-13 | the AMD64 session text is the comment line, the syntax-mode lines and the section lines |
| Assembly.Arm64HeaderText | arm64.go:11 | the ARM64 session text is the comment line and the section lines |
| Assembly.ConcatSplit | assembly.go:70-72 | the text of two blocks of lines is the text of the first followed by that of the second |
| Assembly.RecordConcat | amd64.go:206-208 | recording two lists of roles in turn is recording their concatenation |
| Assembly.Amd64HeadDisciplined | amd64.go:210-252 | AMD64 headings and returns keep the role discipline |
| Assembly.Arm64HeadDisciplined | arm64.go:151-193 | ARM64 headings and returns keep the role discipline |
| Assembly.Amd64MoveDisciplined | amd64.go:254-299 | AMD64 moves keep the role discipline |
| Assembly.Arm64MoveDisciplined | arm64.go:195-266 | ARM64 moves keep the role discipline |
| Assembly.Amd64ArithDisciplined | amd64.go:301-352 | AMD64 add and multiply keep it; multiply checks dest too and records temp then dest |
| Assembly.Arm64ArithDisciplined | arm64.go:268-302 | ARM64 add and multiply keep it; multiply records temp, dest, then the empty role for temp |
| Assembly.Amd64LogicDisciplined | amd64.go:331-393 | AMD64 in-place operations keep the role discipline |
| Assembly.Arm64LogicDisciplined | arm64.go:281-336 | ARM64 in-place operations keep the role discipline |
| Assembly.Amd64MemDisciplined | amd64.go:395-468 | AMD64 memory and stack accesses keep the role discipline |
| Assembly.Amd64LoadDisciplined | amd64.go:395-432 | an AMD64 load checks the base and records the destination |
| Assembly.Amd64StoreDisciplined | amd64.go:434-458 | an AMD64 store checks base and source and records nothing |
| Assembly.Arm64MemDisciplined | arm64.go:338-376 | ARM64 memory and stack accesses keep the role discipline |
| Assembly.Arm64LoadDisciplined | arm64.go:338-354 | an ARM64 load checks the base and records the destination |
| Assembly.Arm64StoreDisciplined | arm64.go:356-366 | an ARM64 store checks base and source and records nothing |
| Assembly.Amd64BranchDisciplined | amd64.go:488-530 | AMD64 jumps and calls keep the role discipline |
| Assembly.Arm64BranchDisciplined | arm64.go:388-413 | ARM64 jumps and calls keep the role discipline |
| Assembly.Amd64SpecialDisciplined | amd64.go:474-540 | AMD64 indirect jump, system call and trap keep the role discipline |
| Assembly.Amd64JumpRegRoutineDisciplined | amd64.go:474-486 | AMD64 `JumpRegRoutine` checks the register, the stack pointer and the register again, and records only the register |
| Assembly.Amd64SyscallDisciplined | amd64.go:532-536 | AMD64 `Syscall` records the syscall-number role, then the result role |
| Assembly.Arm64SpecialDisciplined | arm64.go:382-423 | ARM64 indirect jump, system call and trap keep the role discipline; the system call records only the result role |
| Assembly.ApplyDisciplined | assembly.go:74-113 | every interface method on either architecture: only appends; fails with a role error exactly when a register it reads is refused; once every read passes, fails only with a missing-name error of its architecture; otherwise records exactly its defined roles in order |
| Assembly.RunAppends | assembly.go:115-168 | a run of calls that succeeds only appended to the text and ends with the roles all its calls defined, in order |
| Assembly.OutputGrows | assembly.go:115-168 | the session's text before a successful run is a prefix of the text after it |
| Assembly.RunStopsAtRefusedRead | assembly.go:74-113 | a run stops with a role error at a call whose read register is refused |
| Assembly.SyscallReadsOwnNumber | arch.go:19-25 | each emitter's system call is unchanged when the other architecture's number changes |

## Left out

- `internal/generate-syscalls.go` is not part of this model. It is an offline
  generator that reads files and matches patterns.
- `fmt`, `strings` and `bytes.Buffer` are modelled only as far as the core uses
  them:
  - `%s` and `%d` rendering;
  - `strings.Fields` with Unicode white space;
  - `strings.HasPrefix` and a single `strings.Replace`;
  - an append-only buffer.
- `buffer.checkUsage`, `buffer.regUsage`, `Reg.Use`, `Reg.Is` and `Reg.As` are
  not part of this source. Their modelled behaviour, and the assumption behind
  `Reg.Is`, are described above.
- A Go `panic` is an `Err` value. Which error is returned is stated for the role
  check and, for every emitter, for registers without names: the first unnamed
  register in the order the source asks for names. No panic is modelled for `cond` and
  `shift`, because `Cond` and `Shift` are closed datatypes here.
- Machine semantics are modelled only for the ARM64 move-wide instructions
  (`movz`, `movn`, `movk`, `mov`). Everything else is text selection. In
  particular, nothing is proved about what an AMD64 `mov` with a 32-bit
  register does to the value.
- Whether a real assembler accepts the emitted text is not modelled. For
  example, `reg1` spells the byte registers of R8..R15 as `r8db`..`r15db`, and
  ARM64 names X31 `x31`. The model keeps the source's spellings.
- `MoveRegFloat` only formats a floating-point register name (`xmmN`, `dN`).
- The Go `Assembly` struct embeds `Arch`, `ArchAssembly`, `*System` and
  `*buffer`. This embedding is replaced by `Assembly.Apply`, which dispatches on
  the bound architecture.
- Go `int` is a 64-bit integer here. The source performs no arithmetic that
  wraps except the conversions, `1<<bit` and `-offset`, and all three are
  written out.
- Amd64.Address: the exact line is stated only for symbol names without white
  space. For other names only the line count and the role are stated, because
  `insnf` splits such names into fields.
- Amd64.MoveDef: the exact line is stated only for symbol names without white
  space, for the same reason.
- Amd64.Label: the line count is stated for every name. The exact lines are
  stated in `Amd64.LabelText` only for names without white space.
