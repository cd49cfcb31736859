/**
 Registers and fields of the R200 and of its command packets, as src/radeon_regs.h
 names them.  The service's validator builds its fixed values out of these; the
 client writes them as plain numbers.
 */
module R200Registers {
  import opened Words

  // ------------------------------------------------------------ addresses

  const SE_VAP_CNTL_STATUS: u32 := 0x2140
  const SE_VAP_CNTL: u32 := 0x2080
  const SE_VTX_STATE_CNTL: u32 := 0x2180
  const SE_VTE_CNTL: u32 := 0x20b0
  const SE_VTX_FMT_0: u32 := 0x2088
  const SE_VTX_FMT_1: u32 := 0x208c
  const SE_CNTL: u32 := 0x1c4c
  const PP_CNTL: u32 := 0x1c38
  const PP_TXCBLEND_0: u32 := 0x2f00
  const PP_TXCBLEND2_0: u32 := 0x2f04
  const PP_TXABLEND_0: u32 := 0x2f08
  const PP_TXABLEND2_0: u32 := 0x2f0c
  const PP_CNTL_X: u32 := 0x2cc4
  const RE_AUX_SCISSOR_CNTL: u32 := 0x26f0
  const RE_CNTL: u32 := 0x1c50
  const RE_TOP_LEFT: u32 := 0x26c0
  const RE_WIDTH_HEIGHT: u32 := 0x1c44
  const RB3D_PLANEMASK: u32 := 0x1d84
  const RB3D_BLENDCNTL: u32 := 0x1c20
  const RB3D_CNTL: u32 := 0x1c3c
  const RB3D_COLOROFFSET: u32 := 0x1c40
  const RB3D_COLORPITCH: u32 := 0x1c48

  // ------------------------------------------------------------ fields

  const VAP_FORCE_W_TO_ONE: bv32 := 0x0001_0000
  const VAP_VF_MAX_VTX_NUM_SHIFT := 18
  const VTX_PK_RGBA: bv32 := 1
  const VTX_COLOR_0_SHIFT := 11
  const BFACE_SOLID: bv32 := 3 << 1
  const FFACE_SOLID: bv32 := 3 << 3
  const DIFFUSE_SHADE_GOURAUD: bv32 := 2 << 8
  const VTX_PIX_CENTER_OGL: bv32 := 1 << 27
  const ROUND_MODE_ROUND: bv32 := 1 << 28
  const ROUND_PREC_4TH_PIX: bv32 := 2 << 30
  const TEX_BLEND_0_ENABLE: bv32 := 0x0000_1000
  const TXC_ARG_C_DIFFUSE_COLOR: bv32 := 4 << 10
  const TXC_CLAMP_0_1: bv32 := 1 << 12
  const TXC_OUTPUT_REG_R0: bv32 := 1 << 16
  const TXA_ARG_C_DIFFUSE_ALPHA: bv32 := 4 << 10
  const TXA_CLAMP_0_1: bv32 := 1 << 12
  const TXA_OUTPUT_REG_R0: bv32 := 1 << 16
  const SRC_BLEND_GL_ONE: bv32 := 33 << 16
  const DST_BLEND_GL_ZERO: bv32 := 32 << 24
  const COLOR_FORMAT_RGB565: bv32 := 4 << 10
  const ALL_PLANES: bv32 := 0xffff_ffff
  const CMD_3D_DRAW_IMMD_2: u32 := 0x3500
  const VC_CNTL_PRIM_WALK_RING: bv32 := 0x30
  const VC_CNTL_PRIM_TYPE_TRI_LIST: bv32 := 4

  const VAP_CONTROL: bv32 := VAP_FORCE_W_TO_ONE | (9 << VAP_VF_MAX_VTX_NUM_SHIFT)
  const VERTEX_FORMAT: bv32 := VTX_PK_RGBA << VTX_COLOR_0_SHIFT
  const SE_CONTROL: bv32 :=
    BFACE_SOLID | FFACE_SOLID | DIFFUSE_SHADE_GOURAUD | VTX_PIX_CENTER_OGL | ROUND_MODE_ROUND | ROUND_PREC_4TH_PIX
  const COLOUR_BLEND_2: bv32 := TXC_CLAMP_0_1 | TXC_OUTPUT_REG_R0
  const ALPHA_BLEND_2: bv32 := TXA_CLAMP_0_1 | TXA_OUTPUT_REG_R0
  const BLEND_CONTROL: bv32 := SRC_BLEND_GL_ONE | DST_BLEND_GL_ZERO

  /** The fields, put together, are these numbers. */
  lemma FieldValues()
    ensures VAP_CONTROL == 0x0025_0000 && VERTEX_FORMAT == 0x0000_0800 && SE_CONTROL == 0x9800_021e
    ensures COLOUR_BLEND_2 == 0x0001_1000 && ALPHA_BLEND_2 == 0x0001_1000 && BLEND_CONTROL == 0x2021_0000
    ensures TXC_ARG_C_DIFFUSE_COLOR == 0x1000 && TXA_ARG_C_DIFFUSE_ALPHA == 0x1000 && COLOR_FORMAT_RGB565 == 0x1000
    ensures VC_CNTL_PRIM_WALK_RING | VC_CNTL_PRIM_TYPE_TRI_LIST == 0x34
  {
  }
}
